/**
 Runs of the store on record: what each operation makes of the moment before it, and what any run of them keeps.
 Module Runs performs the operations and shows that every run of the store is such a record.
 */
module Records {
  import opened Wrappers
  import opened CloudTypes
  import opened Spool
  import opened Lookup
  import opened ListMerge
  import opened Contents
  import opened Steps
  import opened ByteRanges
  import MetadataCache

  /** A background task a delete left behind, which has not ended yet. */
  datatype Task = Task(path: Path, job: Scheduled)

  /** One step of a run. `RunTask` is the end of a background task: what the task finds, when it must look for
      its object first, and how the trash call ends. */
  datatype Op =
    | Upload(path: Path, source: Bytes, overwrite: bool, remote: Remote, answer: UploadAnswer)
    | List(path: Path, remote: Remote)
    | GetMetadata(path: Path, remote: Remote)
    | OpenRead(path: Path, range: Option<ByteRange>, remote: Remote)
    | Delete(path: Path, remote: Remote, trash: Result<()>)
    | Move(src: Path, dst: Path, overwrite: bool, remote: Remote, trash: Result<()>, renamed: Result<()>)
    | RunTask(index: nat, found: Option<Item>, outcome: TrashOutcome)
    | Rename(item: Item, name: string, folderId: string)
    | Tick(elapsed: nat)

  /** What an operation answered, and what memory looked like between its lookups. */
  datatype Note =
    | Uploading(seen: View, uploaded: Result<Metadata>)
    | Listing(seen: View, order: seq<Path>, output: Result<seq<Metadata>>)
    | Looking(metadata: Result<Option<Metadata>>)
    | Reading(bytes: Result<Bytes>)
    | Deleting(deleted: Result<Scheduled>)
    | Moving(seen: View, found: View, clear: View, folderId: string, scheduled: Scheduled, moved: Result<Metadata>)
    | Silent

  datatype Config = Config(budget: nat, leftovers: Disk, uploadTtl: nat, tombstoneTtl: nat, cacheTtl: nat, negativeTtl: nat)

  /** The store and the world around it between two steps. */
  datatype Moment = Moment(
    view: View,
    rows: map<Path, MetadataCache.Row>,
    disk: Disk,
    peak: nat,
    provider: Provider,
    until: map<string, int>,
    lifted: set<string>,
    trashed: set<string>,
    tasks: seq<Task>)

  // ------------------------------------------------------------------ what each step does

  /** A new object cannot have an id the provider uses already; such a step does not happen. */
  predicate Possible(m: Moment, answer: UploadAnswer) {
    !answer.Refused? ==> answer.freshId !in m.provider
  }

  /** The provider took the bytes of an upload. */
  predicate Took(m: Moment, op: Op, n: Note) {
    && op.Upload? && n.Uploading? && Possible(m, op.answer) && !op.answer.Refused?
    && UploadTarget(m.view, n.seen, op.remote, op.path, op.overwrite).Ok?
  }

  function TargetAt(m: Moment, op: Op, n: Note): Option<string>
    requires Took(m, op, n)
  {
    UploadTarget(m.view, n.seen, op.remote, op.path, op.overwrite).value.1
  }

  /** The object an upload ended in. */
  function ObjectAt(m: Moment, op: Op, n: Note): string
    requires Took(m, op, n)
  {
    ObjectId(TargetAt(m, op, n), op.answer)
  }

  ghost predicate UploadRecorded(c: Config, m: Moment, op: Op, n: Note, m': Moment)
    requires op.Upload?
  {
    && n.Uploading? && LookupEffects(m.view, n.seen, op.remote, Parent(op.path))
    && m' == m.(view := m'.view, rows := m'.rows, disk := m'.disk, peak := m'.peak, provider := m'.provider)
    && match UploadTarget(m.view, n.seen, op.remote, op.path, op.overwrite)
       case Err(e) => n.uploaded == Err(e) && m'.provider == m.provider && UploadFailed(m, op, n, m')
       case Ok((folderId, target)) =>
         && m'.provider == ProviderAfter(m.provider, target, op.answer, RemoteFile(folderId, Base(op.path), op.source))
         && if op.answer.Accepted? then
              && n.uploaded.Ok?
              && UploadLanded(m.view, m'.view, op.path, UploadedItem(folderId, Base(op.path), |op.source|, target, op.answer),
                              !op.answer.disclosed, |op.source|, folderId, m.view.now + c.uploadTtl)
              && n.uploaded.value == m'.view.overlay[op.path].metadata && LearnsElsewhere(n.seen, m'.view, op.remote, op.path)
              && m'.rows == CachePut(MetadataCache.Without(m.rows, {Parent(op.path), op.path}), n.uploaded.value, m.view.now + c.cacheTtl)
              && (op.answer.disclosed ==> Tied(m'.view, op.path, ObjectId(target, op.answer)))
            else
              n.uploaded == Err(op.answer.error) && UploadFailed(m, op, n, m')
  }

  ghost predicate UploadFailed(m: Moment, op: Op, n: Note, m': Moment)
    requires op.Upload? && n.Uploading?
  {
    LookupEffects(n.seen, m'.view, op.remote, op.path) && m'.rows == m.rows
  }

  ghost predicate ListRecorded(c: Config, m: Moment, op: Op, n: Note, m': Moment)
    requires op.List?
  {
    && n.Listing? && LookupEffects(m.view, n.seen, op.remote, op.path)
    && m' == m.(view := m'.view, rows := m'.rows, disk := m'.disk, lifted := m'.lifted)
    && match FolderItems(m.view, op.remote, op.path)
       case Err(e) => n.output == Err(e) && m'.view == n.seen && m'.rows == m.rows && m'.lifted == m.lifted
       case Ok(items) =>
         && n.output.Ok?
         && ListedFrom(n.seen, m'.view, op.path, items, BeforeList(n.seen, op.path), n.order, n.output.value)
         && CachedAll(m.rows, m'.rows, n.output.value, m.view.now + c.cacheTtl)
         && m'.lifted == m.lifted + SettledIds(BeforeList(n.seen, op.path).children, op.path, Ids(items))
  }

  ghost predicate LookRecorded(c: Config, m: Moment, op: Op, n: Note, m': Moment)
    requires op.GetMetadata?
  {
    && n.Looking? && n.metadata == MetadataAt(m.view, m.rows, op.remote, op.path)
    && m' == m.(view := m'.view, rows := m'.rows, disk := m'.disk)
    && LookupEffects(m.view, m'.view, op.remote, op.path)
    && m'.rows == RowsAfterLook(m.view, m.rows, op.remote, op.path, c.cacheTtl, c.negativeTtl)
  }

  /** A read, and what it gives: of a tombstone nothing, of a live upload the provider's bytes while they are true to
      each other, of any other path what the provider serves for the object found there. */
  ghost predicate ReadRecorded(m: Moment, op: Op, n: Note, m': Moment)
    requires op.OpenRead?
  {
    && n.Reading? && m' == m.(view := m'.view, disk := m'.disk)
    && LookupEffects(m.view, m'.view, op.remote, op.path)
    && (LiveTombstone(m.view.overlay, m.view.now, op.path) ==> n.bytes == Err(NotFound))
    && (LiveUpload(m.view.overlay, m.view.now, op.path) && m.view.overlay[op.path].remoteId.Some? && FaithfulAt(m) ==>
          var id := m.view.overlay[op.path].remoteId.value;
          && id in m.provider
          && (Satisfiable(op.range, |m.provider[id].bytes|) ==> n.bytes == Ok(LocalSlice(m.provider[id].bytes, op.range))))
    && (!Live(m.view.overlay, m.view.now, op.path) ==>
          match Resolve(m.view, op.remote, op.path)
          case Err(e) => n.bytes == Err(e)
          case Ok(None) => n.bytes == Err(NotFound)
          case Ok(Some(item)) => n.bytes == if item.isFolder then Err(NotFound) else Fetch(m.provider, item, op.range))
  }

  /** An attempt to delete `path` left `scheduled` behind. */
  ghost predicate DeleteLeft(c: Config, m: Moment, path: Path, scheduled: Scheduled, m': Moment) {
    && TombstonesAfter(m.view.overlay, m'.view.overlay, path, scheduled)
    && PromisesAfter(m.until, m'.until, m.lifted, m'.lifted, scheduled, m.view.now + c.tombstoneTtl)
    && HidesAfter(m.view.hidden, m'.view.hidden, m.view.now, scheduled)
    && m'.tasks == TasksAfter(m.tasks, path, scheduled)
    && m'.view.now == m.view.now
  }

  function TasksAfter(tasks: seq<Task>, path: Path, scheduled: Scheduled): seq<Task> {
    if scheduled.Nothing? then tasks else tasks + [Task(path, scheduled)]
  }

  ghost predicate DeleteRecorded(c: Config, m: Moment, op: Op, n: Note, m': Moment)
    requires op.Delete?
  {
    && n.Deleting? && n.deleted == DeleteAnswer(m.view, op.remote, op.path, op.trash)
    && m' == m.(view := m'.view, rows := m'.rows, disk := m'.disk, until := m'.until, lifted := m'.lifted, tasks := m'.tasks)
    && OnlySlotChanged(m.view.overlay, m'.view.overlay, m.view.now, op.path) && LearnsFrom(m.view, m'.view, op.remote)
    && DeleteLeft(c, m, op.path, Left(n.deleted), m')
    && m'.rows == (if n.deleted.Ok? && !LiveTombstone(m.view.overlay, m.view.now, op.path)
                   then MetadataCache.Without(m.rows, {op.path, Parent(op.path)}) else m.rows)
    && (n.deleted.Ok? && !LiveTombstone(m.view.overlay, m.view.now, op.path) ==> op.path !in m'.view.pathToItem)
    && (n.deleted.Ok? ==> BuriedAfter(m.view.overlay, m'.view.overlay, m.view.now, op.path, n.deleted.value, c.tombstoneTtl))
    && (LiveTombstone(m.view.overlay, m.view.now, op.path) ==> m'.view == m.view)
    && (Left(n.deleted).TrashObject? ==>
          var item := n.deleted.value.item;
          op.path in m'.view.overlay
          && m'.view.overlay[op.path] == Tombstone(op.path, item, Some(item.id), m.view.now + c.tombstoneTtl))
  }

  ghost predicate MoveRecorded(c: Config, m: Moment, op: Op, n: Note, m': Moment)
    requires op.Move?
  {
    && n.Moving?
    && m' == m.(view := m'.view, rows := m'.rows, disk := m'.disk, provider := m'.provider, until := m'.until,
                lifted := m'.lifted, tasks := m'.tasks)
    && DeleteLeft(c, m, op.dst, n.scheduled, m')
    && if op.src == op.dst then
         && n.moved == Present(MetadataAt(m.view, m.rows, op.remote, op.src)) && n.scheduled.Nothing? && m'.provider == m.provider
         && m'.rows == RowsAfterLook(m.view, m.rows, op.remote, op.src, c.cacheTtl, c.negativeTtl)
       else
         && LookupEffects(m.view, n.seen, op.remote, Parent(op.dst))
         && m'.provider == ProviderMoved(m.provider, LiveUpload(m.view.overlay, m.view.now, op.src), n.moved, op.dst, n.folderId)
         && (n.moved.Ok? ==>
               MetadataAt(m'.view, m'.rows, op.remote, op.dst) ==
                 Ok(ShownAfterMove(m.view, op.src, op.dst, n.scheduled, c.tombstoneTtl, n.moved.value)))
         && (n.moved.Ok? && !LiveUpload(m.view.overlay, m.view.now, op.src) ==>
               && op.src !in m'.view.pathToItem && op.dst in m'.view.pathToItem
               && MovedItem(n.clear, op.remote, op.src, op.dst, n.folderId) == Some(m'.view.pathToItem[op.dst]))
         && m'.rows == (if FolderAt(m.view, op.remote, Parent(op.dst))
                        then RowsAfterMoveTo(n.seen, n.found, m.rows, op.remote, op.src, op.dst, op.overwrite, op.trash, n.moved,
                                             c.cacheTtl, c.negativeTtl)
                        else m.rows)
         && match Resolve(m.view, op.remote, Parent(op.dst))
            case Err(e) => n.moved == Err(e) && n.scheduled.Nothing?
            case Ok(None) => n.moved == Err(NotFound) && n.scheduled.Nothing?
            case Ok(Some(folder)) =>
              if !folder.isFolder then n.moved == Err(NotFound) && n.scheduled.Nothing?
              else
                && n.folderId == folder.id && LookupEffects(n.seen, n.found, op.remote, op.dst)
                && MoveAnswered(m.view, n.seen, n.found, n.clear, m'.view, m.rows, op.remote, op.src, op.dst, folder.id,
                                op.overwrite, op.trash, op.renamed, n.moved, n.scheduled, c.tombstoneTtl)
  }

  /** The object a background task ends up trashing, if it trashes one. */
  function Found(job: Scheduled, found: Option<Item>): Option<Item> {
    match job
    case Nothing => None
    case TrashObject(item) => Some(item)
    case FindThenTrash(_) => found
  }

  /** The object a step trashes. */
  function TrashedAt(m: Moment, op: Op): Option<string> {
    if op.RunTask? && op.index < |m.tasks| && !op.outcome.GaveUp? && Found(m.tasks[op.index].job, op.found).Some? then
      Some(Found(m.tasks[op.index].job, op.found).value.id)
    else
      None
  }

  function AfterTask(m: Moment, op: Op): Moment
    requires op.RunTask?
  {
    if op.index >= |m.tasks| then m
    else
      var m1 := m.(tasks := m.tasks[..op.index] + m.tasks[op.index + 1..]);
      match TrashedAt(m, op)
      case None => m1
      case Some(id) =>
        m1.(provider := m.provider - {id}, trashed := m.trashed + {id},
            view := m.view.(overlay := if op.outcome.Trashed? then MarkDeleted(m.view.overlay, m.tasks[op.index].path)
                                       else m.view.overlay))
  }

  /** What a step makes of the moment before it. */
  ghost predicate StepRecorded(c: Config, m: Moment, op: Op, n: Note, m': Moment) {
    match op
    case Upload(_, _, _, _, _) => if Possible(m, op.answer) then UploadRecorded(c, m, op, n, m') else m' == m
    case List(_, _) => ListRecorded(c, m, op, n, m')
    case GetMetadata(_, _) => LookRecorded(c, m, op, n, m')
    case OpenRead(_, _, _) => ReadRecorded(m, op, n, m')
    case Delete(_, _, _) => DeleteRecorded(c, m, op, n, m')
    case Move(_, _, _, _, _, _) => MoveRecorded(c, m, op, n, m')
    case RunTask(_, _, _) => m' == AfterTask(m, op)
    case Rename(item, name, folderId) => m' == m.(provider := Renamed(m.provider, item.id, name, folderId))
    case Tick(elapsed) => m' == m.(view := m.view.(now := m.view.now + elapsed))
  }

  // ------------------------------------------------------------------ what the store keeps at every moment

  ghost predicate FaithfulAt(m: Moment) {
    Faithful(m.view.overlay, m.view.now, m.disk, m.provider)
  }

  /** The slots are in order, every delete in force hides its object, and the peak covers the disk and is bounded. */
  ghost predicate MomentOk(c: Config, m: Moment) {
    && SlotsOk(m.view.overlay)
    && PromisesKept(m.view.hidden, m.view.now, m.until, m.lifted)
    && Usage(m.disk) <= m.peak && (c.budget > 0 ==> m.peak <= c.budget || m.peak <= Usage(c.leftovers))
  }

  /** A step leaves live uploads true to the provider: an upload whose bytes spare them, a trash call of an object
      none of them stands for, or any other step. */
  ghost predicate Harmless(m: Moment, op: Op, n: Note, m': Moment) {
    && (Took(m, op, n) ==>
          Spares(m.view.overlay, m.view.now, m.disk, if n.uploaded.Ok? then Some(op.path) else None, ObjectAt(m, op, n), op.source,
                 KeptCopies(m'.view.overlay)))
    && (TrashedAt(m, op).Some? ==> !StandsFor(m.view.overlay, m.view.now, TrashedAt(m, op).value))
  }

  /** What holds of a step besides what it does: the peak only grows, and whether live uploads stay true to the
      provider is decided by the moment before. */
  ghost predicate StepKept(m: Moment, op: Op, n: Note, m': Moment) {
    m.peak <= m'.peak && (FaithfulAt(m) ==> (FaithfulAt(m') <==> Harmless(m, op, n, m')))
  }

  ghost predicate StartOf(m: Moment) {
    && m.view.overlay == map[] && m.view.pathToItem == map[] && m.view.hidden == map[]
    && m.until == map[] && m.lifted == {} && m.trashed == {} && m.tasks == []
  }

  /** A run of the store: `moments` before, between and after its steps. */
  ghost predicate RunRecorded(c: Config, ops: seq<Op>, notes: seq<Note>, moments: seq<Moment>) {
    && |notes| == |ops| && |moments| == |ops| + 1
    && StartOf(moments[0])
    && (forall i :: 0 <= i < |moments| ==> MomentOk(c, moments[i]))
    && (forall i :: 0 <= i < |ops| ==> StepRecorded(c, moments[i], ops[i], notes[i], moments[i + 1]))
    && (forall i :: 0 <= i < |ops| ==> StepKept(moments[i], ops[i], notes[i], moments[i + 1]))
  }

  lemma {:induction false} PeakGrows(c: Config, ops: seq<Op>, notes: seq<Note>, moments: seq<Moment>, i: nat, j: nat)
    requires RunRecorded(c, ops, notes, moments) && i <= j <= |ops|
    ensures moments[i].peak <= moments[j].peak
    decreases j - i
  {
    hide StepRecorded, MomentOk;
    if i < j {
      PeakGrows(c, ops, notes, moments, i, j - 1);
      assert StepKept(moments[j - 1], ops[j - 1], notes[j - 1], moments[j - 1 + 1]);
    }
  }

  /** The disk bound over a run: the peak of the last moment covers the disk at every moment. */
  lemma DiskBoundedThroughout(c: Config, ops: seq<Op>, notes: seq<Note>, moments: seq<Moment>, i: nat)
    requires RunRecorded(c, ops, notes, moments) && i <= |ops| && c.budget > 0
    ensures Usage(moments[i].disk) <= moments[|ops|].peak
    ensures moments[|ops|].peak <= c.budget || moments[|ops|].peak <= Usage(c.leftovers)
  {
    hide StepRecorded, StepKept, Usage;
    PeakGrows(c, ops, notes, moments, i, |ops|);
    assert MomentOk(c, moments[i]) && MomentOk(c, moments[|ops|]);
  }

  /** Copies over a run: while all steps are harmless, every live upload stays true to the provider; and the first
      step that is not makes one untrue. */
  lemma {:induction false} FaithfulWhileHarmless(c: Config, ops: seq<Op>, notes: seq<Note>, moments: seq<Moment>, n: nat)
    requires RunRecorded(c, ops, notes, moments) && n <= |ops|
    requires forall i :: 0 <= i < n ==> Harmless(moments[i], ops[i], notes[i], moments[i + 1])
    ensures FaithfulAt(moments[n])
    ensures n < |ops| && !Harmless(moments[n], ops[n], notes[n], moments[n + 1]) ==> !FaithfulAt(moments[n + 1])
    decreases n
  {
    hide StepRecorded, MomentOk, Harmless;
    if n > 0 {
      FaithfulWhileHarmless(c, ops, notes, moments, n - 1);
      assert StepKept(moments[n - 1], ops[n - 1], notes[n - 1], moments[n - 1 + 1]);
    }
    if n < |ops| {
      assert StepKept(moments[n], ops[n], notes[n], moments[n + 1]);
    }
  }

  /** Reads over a run: after harmless steps only, a read of a live upload gives the provider's bytes for its id. */
  lemma ReadsAreTrue(c: Config, ops: seq<Op>, notes: seq<Note>, moments: seq<Moment>, n: nat)
    requires RunRecorded(c, ops, notes, moments) && n < |ops| && ops[n].OpenRead?
    requires forall i :: 0 <= i < n ==> Harmless(moments[i], ops[i], notes[i], moments[i + 1])
    requires var m := moments[n]; LiveUpload(m.view.overlay, m.view.now, ops[n].path) && m.view.overlay[ops[n].path].remoteId.Some?
    ensures var m := moments[n];
      var id := m.view.overlay[ops[n].path].remoteId.value;
      && id in m.provider
      && (Satisfiable(ops[n].range, |m.provider[id].bytes|) ==>
            notes[n].Reading? && notes[n].bytes == Ok(LocalSlice(m.provider[id].bytes, ops[n].range)))
  {
    hide Harmless, MomentOk, StepKept, LocalSlice, Satisfiable, Faithful;
    FaithfulWhileHarmless(c, ops, notes, moments, n);
    assert StepRecorded(c, moments[n], ops[n], notes[n], moments[n + 1]);
  }

  // ------------------------------------------------------------------ what a list makes known

  /** A step that leaves overlay and cache alone, apart from looking things up. */
  predicate Quiet(op: Op) {
    op.GetMetadata? || op.OpenRead? || op.Rename? || op.Tick?
  }

  /** Until that time `p` is described by `metadata`: the cache has it, and a slot in front of it agrees. */
  ghost predicate Describes(m: Moment, p: Path, metadata: Metadata, until: int) {
    && (p in m.view.overlay ==> m.view.overlay[p].state == Uploaded && m.view.overlay[p].metadata == metadata)
    && forall t :: t <= until ==> MetadataCache.Lookup(m.rows, t, p) == Some(metadata)
  }

  lemma ListDescribes(c: Config, m: Moment, op: Op, n: Note, m': Moment, items: seq<Item>, k: nat)
    requires op.List? && ListRecorded(c, m, op, n, m') && FolderItems(m.view, op.remote, op.path) == Ok(items)
    requires NamesDistinct(BeforeList(m.view, op.path), items) && k < |n.output.value|
    ensures Describes(m', n.output.value[k].path, n.output.value[k], m.view.now + c.cacheTtl)
  {
    hide FolderItems, MetadataCache.Lookup, Enumerates, Keyed, NamesDistinct, ListOutput, OverlayAfterList, MemoryAfterList, HiddenAfterList,
         LookupEffects;
    var b, until := BeforeList(n.seen, op.path), m.view.now + c.cacheTtl;
    StillDistinct(m.view, n.seen, op.remote, op.path, items);
    EachPathOnce(b, items, n.order);
    ListedSlot(n.seen.overlay, b, items, n.order, k);
    forall t | t <= until ensures MetadataCache.Lookup(m'.rows, t, n.output.value[k].path) == Some(n.output.value[k]) {
      MetadataCache.PutAllFinds(m.rows, n.output.value, until, t, k);
    }
  }

  lemma StillDistinct(v: View, seen: View, remote: Remote, folder: Path, items: seq<Item>)
    requires LookupEffects(v, seen, remote, folder) && NamesDistinct(BeforeList(v, folder), items)
    ensures NamesDistinct(BeforeList(seen, folder), items)
  {
    hide LearnsFrom, Remembers, SameBelow, Pruned;
    assert forall id :: Hidden(v.hidden, v.now, id) ==> Hidden(seen.hidden, seen.now, id);
  }

  lemma QuietStep(c: Config, m: Moment, op: Op, n: Note, m': Moment, p: Path, metadata: Metadata, until: int)
    requires Quiet(op) && StepRecorded(c, m, op, n, m')
    ensures m.view.now <= m'.view.now
    ensures Describes(m, p, metadata, until) && m.view.now <= until ==> Describes(m', p, metadata, until)
  {
    hide LookupEffects, MetadataAt, RowsAfterLook, Resolve, Satisfiable, FaithfulAt, Fetch, MetadataCache.Lookup, Describes;
    match op
    case GetMetadata(path, remote) =>
      LookupDescribes(m, m', remote, path, p, metadata, until);
      LookDescribes(m, remote, path, c.cacheTtl, c.negativeTtl, p, metadata, until);
      DescribedThen(m, m', p, metadata, until);
    case OpenRead(path, _, remote) =>
      LookupDescribes(m, m', remote, path, p, metadata, until);
      DescribedThen(m, m', p, metadata, until);
    case Rename(_, _, _) => DescribedThen(m, m', p, metadata, until);
    case Tick(_) => DescribedThen(m, m', p, metadata, until);
  }

  lemma LookupDescribes(m: Moment, m': Moment, remote: Remote, looked: Path, p: Path, metadata: Metadata, until: int)
    requires LookupEffects(m.view, m'.view, remote, looked)
    ensures m'.view.now == m.view.now
    ensures p in m'.view.overlay ==> p in m.view.overlay && m'.view.overlay[p] == m.view.overlay[p]
  {
    hide LearnsFrom, Remembers, SameBelow, HiddenPruned;
  }

  lemma DescribedThen(m: Moment, m': Moment, p: Path, metadata: Metadata, until: int)
    requires p in m'.view.overlay ==> p in m.view.overlay && m'.view.overlay[p] == m.view.overlay[p]
    requires Describes(m, p, metadata, until) && m.view.now <= until ==>
      m'.rows == m.rows || forall t :: t <= until ==> MetadataCache.Lookup(m'.rows, t, p) == Some(metadata)
    ensures Describes(m, p, metadata, until) && m.view.now <= until ==> Describes(m', p, metadata, until)
  {
    hide MetadataCache.Lookup;
  }

  /** A metadata read changes no cached description but that of its own path, and not that while it is found. */
  lemma LookDescribes(m: Moment, remote: Remote, looked: Path, ttl: nat, negativeTtl: nat, p: Path, metadata: Metadata, until: int)
    ensures Describes(m, p, metadata, until) && m.view.now <= until ==>
      forall t :: t <= until ==>
        MetadataCache.Lookup(RowsAfterLook(m.view, m.rows, remote, looked, ttl, negativeTtl), t, p) == Some(metadata)
  {
    hide MetadataCache.Lookup;
    if Describes(m, p, metadata, until) && m.view.now <= until {
      if looked == p {
        assert MetadataCache.Lookup(m.rows, m.view.now, p).Some?;
      } else {
        OtherRowsKept(m, remote, looked, ttl, negativeTtl, p);
      }
    }
  }

  lemma OtherRowsKept(m: Moment, remote: Remote, looked: Path, ttl: nat, negativeTtl: nat, p: Path)
    requires p != looked
    ensures forall t :: MetadataCache.Lookup(RowsAfterLook(m.view, m.rows, remote, looked, ttl, negativeTtl), t, p)
                     == MetadataCache.Lookup(m.rows, t, p)
  {
    hide Resolve, ToMetadata, MetadataCache.Encode, MetadataCache.Decode, Live;
    match Resolve(m.view, remote, looked)
    case Ok(Some(item)) => MetadataAtPath(item, looked);
    case _ =>
  }

  lemma {:induction false} StaysDescribed(c: Config, ops: seq<Op>, notes: seq<Note>, moments: seq<Moment>, i: nat, j: nat, p: Path,
                                          metadata: Metadata, until: int)
    requires RunRecorded(c, ops, notes, moments) && i <= j <= |ops| && forall k :: i <= k < j ==> Quiet(ops[k])
    requires Describes(moments[i], p, metadata, until) && moments[j].view.now <= until
    ensures moments[i].view.now <= moments[j].view.now && Describes(moments[j], p, metadata, until)
    decreases j - i
  {
    hide StepRecorded, StepKept, MomentOk, Describes;
    if i < j {
      assert StepRecorded(c, moments[j - 1], ops[j - 1], notes[j - 1], moments[j - 1 + 1]);
      QuietStep(c, moments[j - 1], ops[j - 1], notes[j - 1], moments[j], p, metadata, until);
      StaysDescribed(c, ops, notes, moments, i, j - 1, p, metadata, until);
    }
  }

  /** What a list of a run emitted, a metadata read of its path answers within the cache time, whatever the provider
      says by then, and whatever metadata reads, downloads, renames at the provider and waiting lie in between. */
  lemma ListedIsAnswered(c: Config, ops: seq<Op>, notes: seq<Note>, moments: seq<Moment>, i: nat, j: nat, items: seq<Item>, k: nat)
    requires RunRecorded(c, ops, notes, moments) && i < j < |ops| && forall l :: i < l < j ==> Quiet(ops[l])
    requires ops[i].List? && FolderItems(moments[i].view, ops[i].remote, ops[i].path) == Ok(items)
    requires NamesDistinct(BeforeList(moments[i].view, ops[i].path), items)
    requires notes[i].Listing? && notes[i].output.Ok? && k < |notes[i].output.value|
    requires ops[j].GetMetadata? && ops[j].path == notes[i].output.value[k].path
    requires moments[j].view.now <= moments[i].view.now + c.cacheTtl
    ensures notes[j].Looking? && notes[j].metadata == Ok(Some(notes[i].output.value[k]))
  {
    hide ListRecorded, LookRecorded, StepKept, MomentOk, Describes, FolderItems, NamesDistinct;
    var meta, until := notes[i].output.value[k], moments[i].view.now + c.cacheTtl;
    assert StepRecorded(c, moments[i], ops[i], notes[i], moments[i + 1]) && StepRecorded(c, moments[j], ops[j], notes[j], moments[j + 1]);
    hide StepRecorded;
    ListDescribes(c, moments[i], ops[i], notes[i], moments[i + 1], items, k);
    StaysDescribed(c, ops, notes, moments, i + 1, j, meta.path, meta, until);
    LookAnswers(c, moments[j], ops[j], notes[j], moments[j + 1], meta, until);
  }

  lemma LookAnswers(c: Config, m: Moment, op: Op, n: Note, m': Moment, metadata: Metadata, until: int)
    requires op.GetMetadata? && LookRecorded(c, m, op, n, m') && Describes(m, op.path, metadata, until) && m.view.now <= until
    ensures n.Looking? && n.metadata == Ok(Some(metadata))
  {
    hide LookupEffects, RowsAfterLook, Resolve, MetadataCache.Lookup;
  }

  /** Whether a moved object is seen at its destination. A recent upload always is. Any other object is exactly when no
      tombstone was in front of the destination and the move did not overwrite a file there, whose own tombstone lasts any
      time; otherwise the destination
      reads as missing, although the move succeeded. */
  lemma MovedShowsIff(c: Config, m: Moment, op: Op, n: Note, m': Moment)
    requires op.Move? && MoveRecorded(c, m, op, n, m') && op.src != op.dst && n.moved.Ok?
    ensures var seen := MetadataAt(m'.view, m'.rows, op.remote, op.dst);
      && (seen == Ok(Some(n.moved.value)) <==>
            || LiveUpload(m.view.overlay, m.view.now, op.src)
            || !(LiveTombstone(m.view.overlay, m.view.now, op.dst)
                 || (op.overwrite && c.tombstoneTtl > 0 && FileAt(n.seen, n.found, m.rows, op.remote, op.dst))))
      && (seen == Ok(Some(n.moved.value)) || seen == Ok(None))
  {
    hide MetadataAt, FileAt, Resolve, DeleteLeft, ClearAnswer, RemoteMoveAnswer, UploadMoved, ClearedTo, ProviderMoved;
    LookupLearns(n.seen, n.found, op.remote, op.dst);
    OverwritingLeavesTombstone(n.seen, n.found, m.rows, op.remote, op.dst, op.overwrite, op.trash);
  }

  // ------------------------------------------------------------------ remembered folders

  /** Whatever the provider lists at `p` is a folder. */
  ghost predicate OnlyFoldersAt(v: View, remote: Remote, p: Path) {
    forall item :: ListedAt(v, remote, p, item) ==> item.isFolder
  }

  /** A folder that memory holds at a path without an overlay slot is there. */
  predicate FolderKnown(v: View, p: Path) {
    p !in v.overlay && p in v.pathToItem && v.pathToItem[p].isFolder
  }

  lemma LookupKeepsFolder(v: View, v': View, remote: Remote, looked: Path, p: Path)
    requires LookupEffects(v, v', remote, looked) && p != [] && FolderKnown(v, p) && OnlyFoldersAt(v, remote, p)
    ensures FolderKnown(v', p)
  {
    hide ListedAt, SameBelow;
  }

  lemma ListKeepsFolder(v: View, seen: View, v': View, remote: Remote, folder: Path, items: seq<Item>, order: seq<Path>,
                        output: seq<Metadata>, p: Path)
    requires LookupEffects(v, seen, remote, folder) && FolderItems(v, remote, folder) == Ok(items)
    requires ListedFrom(seen, v', folder, items, BeforeList(seen, folder), order, output)
    requires p != [] && FolderKnown(v, p) && OnlyFoldersAt(v, remote, p)
    ensures FolderKnown(v', p)
  {
    hide FolderItems, Enumerates, Keyed, HiddenAfterList, SettledIds, ToMetadata, PassOk, LearnsFrom, Remembers, SameBelow, OnlyFoldersAt;
    var b := BeforeList(seen, folder);
    LookupKeepsFolder(v, seen, remote, folder, p);
    PassesKeep(b, items);
    FoundIsFolder(v, seen, remote, folder, items, b, p);
    NotWaiting(b, items, p);
  }

  lemma FoundIsFolder(v: View, seen: View, remote: Remote, folder: Path, items: seq<Item>, b: Before, p: Path)
    requires Aged(v, seen) && FolderItems(v, remote, folder) == Ok(items) && OnlyFoldersAt(v, remote, p) && p != []
    requires b.folder == folder && b.hidden == seen.hidden && b.now == seen.now && PassOk(b, items, MergeListing(b, items))
    ensures var m := MergeListing(b, items); p in m.found ==> m.found[p].isFolder
  {
    hide FolderItems;
    var m := MergeListing(b, items);
    if p in m.found {
      assert FoundOk(b, items, m, p);
      assert ListedAt(v, remote, p, m.found[p]);
    }
  }

  lemma NotWaiting(b: Before, items: seq<Item>, p: Path)
    requires PassOk(b, items, MergeListing(b, items)) && p !in b.children
    ensures p !in Waiting(MergeListing(b, items)) && p !in Settled(b.children, b.folder, Ids(items))
  {
  }

  /** Lists, metadata reads and downloads never lose a folder that memory holds at a path without an overlay slot, as
      long as the provider lists no file there. */
  lemma KnownFolderStays(c: Config, m: Moment, op: Op, n: Note, m': Moment, p: Path)
    requires op.List? || op.GetMetadata? || op.OpenRead?
    requires StepRecorded(c, m, op, n, m') && p != [] && FolderKnown(m.view, p) && OnlyFoldersAt(m.view, op.remote, p)
    ensures FolderKnown(m'.view, p)
  {
    hide LookupEffects, MetadataAt, RowsAfterLook, FolderItems, Resolve, Satisfiable, FaithfulAt, Fetch, ListedFrom, CachedAll,
         SettledIds, BeforeList, OnlyFoldersAt, FolderKnown;
    match op
    case List(folder, remote) =>
      match FolderItems(m.view, remote, folder) {
        case Err(_) => LookupKeepsFolder(m.view, n.seen, remote, folder, p);
        case Ok(items) => ListKeepsFolder(m.view, n.seen, m'.view, remote, folder, items, n.order, n.output.value, p);
      }
    case GetMetadata(path, remote) => LookupKeepsFolder(m.view, m'.view, remote, path, p);
    case OpenRead(path, _, remote) => LookupKeepsFolder(m.view, m'.view, remote, path, p);
    case _ =>
  }

  /** After the accepted delete of a folder nothing is left of it: no cache row answers for it or its parent at any
      time, and whoever looks its path up asks the provider. A metadata read answers what the lookup then finds, which is
      nothing when no listed object of its parent has its name. */
  lemma DeletedFolderIsGone(c: Config, m: Moment, op: Op, n: Note, m': Moment, remote: Remote, t: int)
    requires op.Delete? && DeleteRecorded(c, m, op, n, m') && !InForce(m.view.overlay, m.view.now, op.path)
    requires n.deleted == Ok(Nothing)
    ensures MetadataCache.Lookup(m'.rows, t, op.path).None? && MetadataCache.Lookup(m'.rows, t, Parent(op.path)).None?
    ensures Asked(m'.view, op.path)
    ensures ReadsAsFound(Resolve(m'.view, remote, op.path), MetadataAt(m'.view, m'.rows, remote, op.path), op.path)
    ensures op.path != [] && NothingListed(FolderItems(m'.view, remote, Parent(op.path)), Base(op.path)) ==>
      MetadataAt(m'.view, m'.rows, remote, op.path) == Ok(None)
  {
    hide FolderItems, Resolve, LearnsFrom, TombstonesAfter, PromisesAfter, HidesAfter, DeleteAnswer, OnlySlotChanged, MetadataAt, NothingListed;
    MetadataCache.InvalidatedIsGone(m.rows, {op.path, Parent(op.path)}, t, op.path);
    MetadataCache.InvalidatedIsGone(m.rows, {op.path, Parent(op.path)}, t, Parent(op.path));
    MetadataReadsTo(m'.view, m'.rows, remote, op.path);
    if op.path != [] {
      NothingFound(m'.view, remote, op.path);
    }
  }

  /** The folder is listed, and no object in it has this name in any case. */
  ghost predicate NothingListed(listed: Result<seq<Item>>, name: string) {
    listed.Ok? && forall i :: 0 <= i < |listed.value| ==> !SameUpToCase(listed.value[i].name, name)
  }

  lemma NothingFound(v: View, remote: Remote, p: Path)
    requires p != [] && Asked(v, p)
    ensures NothingListed(FolderItems(v, remote, Parent(p)), Base(p)) ==> Resolve(v, remote, p) == Ok(None)
  {
    ResolvesTo(v, remote, p);
    if FolderItems(v, remote, Parent(p)).Ok? {
      var items := FolderItems(v, remote, Parent(p)).value;
      FindsTheAnswer(v, Parent(p), Base(p), items);
    }
  }
}
