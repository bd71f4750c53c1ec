/**
 Deleted objects over runs of the store: what a list may still show of them, and when.
 */
module Deletions {
  import opened Wrappers
  import opened CloudTypes
  import opened Lookup
  import opened ListMerge
  import opened Contents
  import opened Spool
  import opened Steps
  import opened Records

  // ------------------------------------------------------------------ what a run did

  /** Step `i` accepted the delete of object `id`, as a delete or to clear the way for a move. */
  ghost predicate Deletes(ops: seq<Op>, notes: seq<Note>, i: int, id: string) {
    && 0 <= i < |ops| && i < |notes|
    && ((ops[i].Delete? && notes[i].Deleting? && Schedules(Left(notes[i].deleted), id))
        || (ops[i].Move? && notes[i].Moving? && Schedules(notes[i].scheduled, id)))
  }

  /** What step `j` leaves for later at `path`. */
  function LeftAt(ops: seq<Op>, notes: seq<Note>, j: int): Option<(Path, Scheduled)>
    requires 0 <= j < |ops| && j < |notes|
  {
    if ops[j].Delete? && notes[j].Deleting? then Some((ops[j].path, Left(notes[j].deleted)))
    else if ops[j].Move? && notes[j].Moving? then Some((ops[j].dst, notes[j].scheduled))
    else None
  }

  /** Step `j` is a list that gets to see `items`. */
  ghost predicate Sees(ops: seq<Op>, moments: seq<Moment>, j: int, items: seq<Item>) {
    && 0 <= j < |ops| && j < |moments| && ops[j].List?
    && FolderItems(moments[j].view, ops[j].remote, ops[j].path) == Ok(items)
  }

  /** The ids of the objects a list shows from its listing. */
  ghost function EmittedIds(b: Before, items: seq<Item>): set<string> {
    set k | 0 <= k < |MergeListing(b, items).output| :: MergeListing(b, items).output[k].id
  }

  /** Step `j` is a list that emits object `id` from its listing. */
  ghost predicate Emits(ops: seq<Op>, moments: seq<Moment>, j: int, id: string) {
    exists items :: Sees(ops, moments, j, items) && id in EmittedIds(BeforeList(moments[j].view, ops[j].path), items)
  }

  /** Step `k` is a list that unhides object `id`: its tombstone is marked, and the listing lacks it. */
  ghost predicate Lifts(ops: seq<Op>, moments: seq<Moment>, k: int, id: string) {
    exists items :: Sees(ops, moments, k, items)
      && id in SettledIds(BeforeList(moments[k].view, ops[k].path).children, ops[k].path, Ids(items))
  }

  /** Step `k` is a list of the folder that holds the tombstone of object `id`, and its listing lacks the object. */
  ghost predicate Misses(ops: seq<Op>, moments: seq<Moment>, k: int, id: string) {
    exists items, p :: Sees(ops, moments, k, items) && id !in Ids(items) && BuriedIn(moments[k].view, ops[k].path, p, id)
  }

  /** A live tombstone of object `id`, marked as trashed, stands at `p` in `folder`. */
  ghost predicate BuriedIn(v: View, folder: Path, p: Path, id: string) {
    && Parent(p) == folder && LiveTombstone(v.overlay, v.now, p)
    && v.overlay[p].remoteDeleted && v.overlay[p].remoteId == Some(id)
  }

  ghost predicate LiftedWithin(ops: seq<Op>, moments: seq<Moment>, i: int, j: int, id: string) {
    exists k :: i < k < j && Lifts(ops, moments, k, id)
  }

  /** Step `k` trashed object `id`. */
  ghost predicate Trashes(ops: seq<Op>, moments: seq<Moment>, k: int, id: string) {
    0 <= k < |ops| && k < |moments| && TrashedAt(moments[k], ops[k]) == Some(id)
  }

  predicate Pending(tasks: seq<Task>, path: Path) {
    exists k :: 0 <= k < |tasks| && tasks[k].path == path
  }

  /** Up to step `n`, no delete of a path was accepted while an earlier delete task of that path was running. */
  ghost predicate Separate(ops: seq<Op>, notes: seq<Note>, moments: seq<Moment>, n: int)
    requires n <= |ops| && |notes| == |ops| && |moments| == |ops| + 1
  {
    forall j :: 0 <= j < n && LeftAt(ops, notes, j).Some? && !LeftAt(ops, notes, j).value.1.Nothing? ==>
      !Pending(moments[j].tasks, LeftAt(ops, notes, j).value.0)
  }

  // ------------------------------------------------------------------ single steps

  /** The folder lookup that precedes a list does not change what the list does. */
  lemma LookedUpFirst(v: View, seen: View, remote: Remote, folder: Path, items: seq<Item>)
    requires LookupEffects(v, seen, remote, folder)
    ensures BeforeList(seen, folder).children == BeforeList(v, folder).children
    ensures EmittedIds(BeforeList(seen, folder), items) == EmittedIds(BeforeList(v, folder), items)
  {
    hide LearnsFrom, SameBelow, Remembers;
    var b, b' := BeforeList(v, folder), BeforeList(seen, folder);
    assert b'.children == b.children;
    SameMerge(b, b', items);
  }

  lemma PromisedNotSeen(v: View, until: map<string, int>, lifted: set<string>, folder: Path, items: seq<Item>)
    requires PromisesKept(v.hidden, v.now, until, lifted)
    ensures forall id :: id in EmittedIds(BeforeList(v, folder), items) ==> !Promised(until, lifted, v.now, id)
  {
    PromisedNotEmitted(v.hidden, until, lifted, BeforeList(v, folder), items);
  }

  lemma LookupTombstones(v: View, v': View, remote: Remote, looked: Path, path: Path)
    requires LookupEffects(v, v', remote, looked)
    ensures TombstonesAfter(v.overlay, v'.overlay, path, Nothing)
  {
    hide LearnsFrom, SameBelow, Remembers;
  }

  lemma UploadTombstones(v: View, v': View, path: Path, uploaded: Item, pending: bool, size: nat, folderId: string, expiresAt: int)
    requires SlotsOk(v.overlay) && UploadLanded(v, v', path, uploaded, pending, size, folderId, expiresAt)
    ensures TombstonesAfter(v.overlay, v'.overlay, path, Nothing)
  {
    hide ToMetadata, HiddenPruned;
    forall p | p in v'.overlay && v'.overlay[p].state == PendingDelete ensures p in v.overlay && v'.overlay[p] == v.overlay[p] {
      assert p in v'.overlay - {path} && SlotOk(p, v.overlay[p]);
    }
  }

  lemma ListTombstones(seen: View, v': View, folder: Path, items: seq<Item>, order: seq<Path>, output: seq<Metadata>)
    requires ListedFrom(seen, v', folder, items, BeforeList(seen, folder), order, output)
    ensures TombstonesAfter(seen.overlay, v'.overlay, folder, Nothing)
  {
    hide Enumerates, SettledIds, Keyed, HiddenAfterList;
  }

  // ------------------------------------------------------------------ promises over a run

  ghost predicate NoLaterThan(until: map<string, int>, limit: int) {
    forall id :: id in until ==> until[id] <= limit
  }

  /** Every accepted delete before step `n` is still promised for its whole time, or was lifted. */
  ghost predicate Standing(c: Config, ops: seq<Op>, notes: seq<Note>, moments: seq<Moment>, n: int)
    requires 0 <= n <= |ops| && |moments| == |ops| + 1
  {
    forall i, id :: i < n && Deletes(ops, notes, i, id) ==>
      || LiftedWithin(ops, moments, i, n, id)
      || Kept(moments[n], id, moments[i].view.now + c.tombstoneTtl)
  }

  ghost predicate Kept(m: Moment, id: string, until: int) {
    id in m.until && until <= m.until[id] && id !in m.lifted
  }

  /** What a step may do to the promises: none, lift those of a list, or make one. */
  ghost predicate PromiseStep(c: Config, ops: seq<Op>, notes: seq<Note>, moments: seq<Moment>, n: int)
    requires 0 <= n < |ops| && |moments| == |ops| + 1
  {
    var m, m' := moments[n], moments[n + 1];
    && m.view.now <= m'.view.now
    && (forall id :: id in m.until && !Deletes(ops, notes, n, id) ==> id in m'.until && m'.until[id] == m.until[id])
    && (forall id :: id in m'.until && !Deletes(ops, notes, n, id) ==> id in m.until)
    && (forall id :: Deletes(ops, notes, n, id) ==> Kept(m', id, m.view.now + c.tombstoneTtl) && m'.until[id] == m.view.now + c.tombstoneTtl)
    && (forall id :: id in m'.lifted && id !in m.lifted ==> Lifts(ops, moments, n, id))
  }

  lemma DeleteStep(c: Config, ops: seq<Op>, notes: seq<Note>, moments: seq<Moment>, n: int, path: Path, scheduled: Scheduled)
    requires 0 <= n < |ops| && |moments| == |ops| + 1
    requires DeleteLeft(c, moments[n], path, scheduled, moments[n + 1])
    requires forall id :: Deletes(ops, notes, n, id) <==> Schedules(scheduled, id)
    ensures PromiseStep(c, ops, notes, moments, n)
  {
    hide TombstonesAfter, HidesAfter;
  }

  lemma NowKept(v: View, v': View, remote: Remote, path: Path)
    requires LookupEffects(v, v', remote, path)
    ensures v'.now == v.now
  {
  }

  lemma ListedNow(seen: View, v': View, folder: Path, items: seq<Item>, b: Before, order: seq<Path>, output: seq<Metadata>)
    requires ListedFrom(seen, v', folder, items, b, order, output)
    ensures v'.now == seen.now
  {
  }

  lemma ListStep(c: Config, ops: seq<Op>, notes: seq<Note>, moments: seq<Moment>, n: int)
    requires 0 <= n < |ops| && |notes| == |ops| && |moments| == |ops| + 1 && ops[n].List?
    requires ListRecorded(c, moments[n], ops[n], notes[n], moments[n + 1])
    ensures PromiseStep(c, ops, notes, moments, n)
  {
    hide LookupEffects, CachedAll, SettledIds, Ids, ListedFrom, EmittedIds, BeforeList, FolderItems;
    var m, m', op, note := moments[n], moments[n + 1], ops[n], notes[n];
    NowKept(m.view, note.seen, op.remote, op.path);
    match FolderItems(m.view, op.remote, op.path)
    case Err(_) =>
    case Ok(items) =>
      LookedUpFirst(m.view, note.seen, op.remote, op.path, items);
      ListedNow(note.seen, m'.view, op.path, items, BeforeList(note.seen, op.path), note.order, note.output.value);
      assert Sees(ops, moments, n, items);
  }

  lemma OtherStep(c: Config, ops: seq<Op>, notes: seq<Note>, moments: seq<Moment>, n: int)
    requires 0 <= n < |ops| && |notes| == |ops| && |moments| == |ops| + 1
    requires StepRecorded(c, moments[n], ops[n], notes[n], moments[n + 1])
    requires !ops[n].List? && !ops[n].Delete? && !ops[n].Move?
    ensures PromiseStep(c, ops, notes, moments, n)
  {
    OtherPromises(c, moments[n], ops[n], notes[n], moments[n + 1]);
    hide StepRecorded;
  }

  /** Only lists, deletes and moves touch promises. */
  lemma OtherPromises(c: Config, m: Moment, op: Op, n: Note, m': Moment)
    requires StepRecorded(c, m, op, n, m') && !op.List? && !op.Delete? && !op.Move?
    ensures m'.until == m.until && m'.lifted == m.lifted && m.view.now <= m'.view.now
  {
    hide LookupEffects, MetadataAt, RowsAfterLook, FolderItems, UploadRecorded, Resolve, Satisfiable, FaithfulAt, Fetch;
    match op
    case Upload(_, _, _, _, _) =>
      if Possible(m, op.answer) {
        UploadPromises(c, m, op, n, m');
      }
    case GetMetadata(path, remote) => NowKept(m.view, m'.view, remote, path);
    case OpenRead(path, _, remote) => NowKept(m.view, m'.view, remote, path);
    case _ =>
  }

  lemma UploadPromises(c: Config, m: Moment, op: Op, n: Note, m': Moment)
    requires op.Upload? && UploadRecorded(c, m, op, n, m')
    ensures m'.view.now == m.view.now && m'.until == m.until && m'.lifted == m.lifted
  {
    hide SameBelow, LearnsFrom, Remembers, IsUploadEntry, Thinned, UploadTarget, CachePut, ProviderAfter;
  }

  lemma StepPromises(c: Config, ops: seq<Op>, notes: seq<Note>, moments: seq<Moment>, n: int)
    requires 0 <= n < |ops| && |notes| == |ops| && |moments| == |ops| + 1
    requires StepRecorded(c, moments[n], ops[n], notes[n], moments[n + 1])
    ensures PromiseStep(c, ops, notes, moments, n)
  {
    hide UploadRecorded, ListRecorded, LookRecorded, ReadRecorded, PromiseStep, DeleteLeft, MoveAnswered, OnlySlotChanged, DeleteAnswer,
         LookupEffects, MetadataAt, ProviderMoved, Resolve, Tombstone;
    if ops[n].List? {
      ListStep(c, ops, notes, moments, n);
    } else if ops[n].Delete? {
      DeleteStep(c, ops, notes, moments, n, ops[n].path, Left(notes[n].deleted));
    } else if ops[n].Move? {
      DeleteStep(c, ops, notes, moments, n, ops[n].dst, notes[n].scheduled);
    } else {
      OtherStep(c, ops, notes, moments, n);
    }
  }

  lemma StandingStep(c: Config, ops: seq<Op>, notes: seq<Note>, moments: seq<Moment>, n: int)
    requires 0 <= n < |ops| && |notes| == |ops| && |moments| == |ops| + 1
    requires Standing(c, ops, notes, moments, n) && PromiseStep(c, ops, notes, moments, n)
    requires NoLaterThan(moments[n].until, moments[n].view.now + c.tombstoneTtl)
    ensures Standing(c, ops, notes, moments, n + 1)
    ensures NoLaterThan(moments[n + 1].until, moments[n + 1].view.now + c.tombstoneTtl)
  {
    hide Lifts;
    var m, m' := moments[n], moments[n + 1];
    forall i, id | i < n + 1 && Deletes(ops, notes, i, id)
      ensures LiftedWithin(ops, moments, i, n + 1, id) || Kept(m', id, moments[i].view.now + c.tombstoneTtl)
    {
      if i < n {
        if LiftedWithin(ops, moments, i, n, id) {
          var k :| i < k < n && Lifts(ops, moments, k, id);
        } else if id in m'.lifted && !Deletes(ops, notes, n, id) {
          assert Lifts(ops, moments, n, id);
        } else {
          assert Kept(m, id, moments[i].view.now + c.tombstoneTtl);
        }
      }
    }
  }

  /** Every delete a run accepted is in force for its whole time, unless a list lifted it. */
  lemma {:induction false} PromisesStand(c: Config, ops: seq<Op>, notes: seq<Note>, moments: seq<Moment>, n: int)
    requires RunRecorded(c, ops, notes, moments) && 0 <= n <= |ops|
    ensures Standing(c, ops, notes, moments, n)
    ensures NoLaterThan(moments[n].until, moments[n].view.now + c.tombstoneTtl)
    decreases n
  {
    hide StepRecorded, StepKept, MomentOk, PromiseStep, Deletes, Kept;
    if n == 0 {
      NothingDeletedYet(ops, notes);
    } else {
      PromisesStand(c, ops, notes, moments, n - 1);
      assert StepRecorded(c, moments[n - 1], ops[n - 1], notes[n - 1], moments[n - 1 + 1]);
      StepPromises(c, ops, notes, moments, n - 1);
      StandingStep(c, ops, notes, moments, n - 1);
    }
  }

  lemma NothingDeletedYet(ops: seq<Op>, notes: seq<Note>)
    ensures forall i, id :: i < 0 ==> !Deletes(ops, notes, i, id)
  {
  }

  /** A list emits no object whose delete is in force. */
  lemma NothingPromisedEmitted(c: Config, ops: seq<Op>, moments: seq<Moment>, j: int, id: string)
    requires 0 <= j < |moments| && MomentOk(c, moments[j]) && Emits(ops, moments, j, id)
    ensures !Promised(moments[j].until, moments[j].lifted, moments[j].view.now, id)
  {
    hide EmittedIds, Promised;
    var items :| Sees(ops, moments, j, items) && id in EmittedIds(BeforeList(moments[j].view, ops[j].path), items);
    PromisedNotSeen(moments[j].view, moments[j].until, moments[j].lifted, ops[j].path, items);
  }

  /** No list of a run emits a deleted object before its time, unless a list in between lifted that; whatever else
      happens to the path meanwhile, and whatever the provider lists. */
  lemma HiddenUntilLifted(c: Config, ops: seq<Op>, notes: seq<Note>, moments: seq<Moment>, i: int, j: int, id: string)
    requires RunRecorded(c, ops, notes, moments) && 0 <= i < j < |ops|
    requires Deletes(ops, notes, i, id) && Emits(ops, moments, j, id)
    requires moments[j].view.now < moments[i].view.now + c.tombstoneTtl
    ensures LiftedWithin(ops, moments, i, j, id)
  {
    hide StepRecorded, StepKept, Deletes, Emits, Lifts, MomentOk;
    PromisesStand(c, ops, notes, moments, j);
    NothingPromisedEmitted(c, ops, moments, j, id);
  }

  // ------------------------------------------------------------------ marks over a run

  /** A tombstone in front of a pending task is the one that task was started for. */
  ghost predicate TasksMatch(o: Overlay, tasks: seq<Task>) {
    forall k :: 0 <= k < |tasks| && tasks[k].path in o && o[tasks[k].path].state == PendingDelete ==>
      o[tasks[k].path].remoteId == if tasks[k].job.TrashObject? then Some(tasks[k].job.item.id) else None
  }

  ghost predicate MarksOk(m: Moment) {
    MarksTrue(m.view.overlay, m.trashed) && TasksMatch(m.view.overlay, m.tasks)
  }

  /** A new tombstone matches its own task, and no task of another path is touched. */
  lemma TasksStillMatch(o: Overlay, o': Overlay, path: Path, scheduled: Scheduled, tasks: seq<Task>, trashed: set<string>)
    requires MarksTrue(o, trashed) && TasksMatch(o, tasks) && TombstonesAfter(o, o', path, scheduled)
    requires !scheduled.Nothing? ==> !Pending(tasks, path)
    ensures MarksTrue(o', trashed) && TasksMatch(o', TasksAfter(tasks, path, scheduled))
  {
    var tasks' := TasksAfter(tasks, path, scheduled);
    forall k | 0 <= k < |tasks'| && tasks'[k].path in o' && o'[tasks'[k].path].state == PendingDelete
      ensures o'[tasks'[k].path].remoteId == if tasks'[k].job.TrashObject? then Some(tasks'[k].job.item.id) else None
    {
      if k < |tasks| {
        assert tasks'[k] == tasks[k];
        assert tasks[k].path == path ==> Pending(tasks, path);
      }
    }
  }

  lemma FewerTasks(o: Overlay, tasks: seq<Task>, index: nat)
    requires index < |tasks| && TasksMatch(o, tasks)
    ensures TasksMatch(o, tasks[..index] + tasks[index + 1..])
  {
  }

  /** The mark a task leaves is that of its own object. */
  lemma MarkMatches(m: Moment, op: Op)
    requires op.RunTask? && MarksOk(m)
    ensures MarksOk(AfterTask(m, op))
  {
    hide MarksTrue, TasksMatch, MisleadsMark, MarkDeleted;
    if op.index < |m.tasks| {
      var o, path := m.view.overlay, m.tasks[op.index].path;
      FewerTasks(o, m.tasks, op.index);
      if TrashedAt(m, op).Some? {
        var id := TrashedAt(m, op).value;
        MarkedTruly(o, m.trashed, path, id);
        OwnMark(o, m.tasks, op.index, op.found, m.trashed);
        MarkKeepsMatch(o, path, m.tasks[..op.index] + m.tasks[op.index + 1..]);
      }
    }
  }

  /** The tombstone of a task's path, if it has an id, has that of the task's object. */
  lemma OwnMark(o: Overlay, tasks: seq<Task>, index: nat, found: Option<Item>, trashed: set<string>)
    requires index < |tasks| && TasksMatch(o, tasks) && Found(tasks[index].job, found).Some?
    ensures !MisleadsMark(o, trashed, tasks[index].path, Found(tasks[index].job, found).value.id)
  {
  }

  lemma MarkKeepsMatch(o: Overlay, path: Path, tasks: seq<Task>)
    requires TasksMatch(o, tasks)
    ensures TasksMatch(MarkDeleted(o, path), tasks)
  {
  }

  /** Everything in `trashed` was trashed by an earlier step. */
  ghost predicate TrashingOnRecord(ops: seq<Op>, moments: seq<Moment>, n: int)
    requires 0 <= n < |moments|
  {
    forall id :: id in moments[n].trashed ==> exists k :: k < n && Trashes(ops, moments, k, id)
  }

  lemma StepMarks(c: Config, m: Moment, op: Op, n: Note, m': Moment)
    requires MomentOk(c, m) && MarksOk(m) && StepRecorded(c, m, op, n, m')
    requires op.Delete? && n.Deleting? && !Left(n.deleted).Nothing? ==> !Pending(m.tasks, op.path)
    requires op.Move? && n.Moving? && !n.scheduled.Nothing? ==> !Pending(m.tasks, op.dst)
    ensures MarksOk(m')
  {
    hide LookupEffects, MetadataAt, RowsAfterLook, FolderItems, UploadTarget, CachePut, Resolve, Satisfiable, FaithfulAt, Fetch,
         UploadLanded, ListedFrom, CachedAll, SettledIds, MoveAnswered, OnlySlotChanged, DeleteAnswer, PromisesAfter, HidesAfter,
         Pending, TombstonesAfter, ProviderMoved, MarksTrue, TasksMatch, AfterTask, Tombstone, UploadRecorded, ListRecorded, Usage,
         PromisesKept, SlotsOk;
    match op
    case Upload(_, _, _, _, _) =>
      if Possible(m, op.answer) {
        UploadMarks(c, m, op, n, m');
      }
    case List(_, _) => ListMarks(c, m, op, n, m');
    case GetMetadata(path, remote) =>
      LookupTombstones(m.view, m'.view, remote, path, path);
      TasksStillMatch(m.view.overlay, m'.view.overlay, path, Nothing, m.tasks, m.trashed);
    case OpenRead(path, _, remote) =>
      LookupTombstones(m.view, m'.view, remote, path, path);
      TasksStillMatch(m.view.overlay, m'.view.overlay, path, Nothing, m.tasks, m.trashed);
    case Delete(path, _, _) =>
      TasksStillMatch(m.view.overlay, m'.view.overlay, path, Left(n.deleted), m.tasks, m.trashed);
    case Move(_, dst, _, _, _, _) =>
      TasksStillMatch(m.view.overlay, m'.view.overlay, dst, n.scheduled, m.tasks, m.trashed);
    case RunTask(_, _, _) => MarkMatches(m, op);
    case _ =>
  }

  lemma UploadMarks(c: Config, m: Moment, op: Op, n: Note, m': Moment)
    requires op.Upload? && MomentOk(c, m) && MarksOk(m) && UploadRecorded(c, m, op, n, m')
    ensures MarksOk(m')
  {
    hide LookupEffects, MarksTrue, TasksMatch, UploadLanded, UploadTarget, Usage, PromisesKept, SlotsOk, UploadedItem, CachePut,
         TombstonesAfter;
    var (v, v', path) := (m.view, m'.view, op.path);
    match UploadTarget(v, n.seen, op.remote, path, op.overwrite)
    case Ok((folderId, target)) =>
      if op.answer.Accepted? {
        UploadTombstones(v, v', path, UploadedItem(folderId, Base(path), |op.source|, target, op.answer), !op.answer.disclosed,
                         |op.source|, folderId, v.now + c.uploadTtl);
        TasksStillMatch(v.overlay, v'.overlay, path, Nothing, m.tasks, m.trashed);
      } else {
        LookedTwice(v, n.seen, v', op.remote, path, m);
      }
    case Err(_) => LookedTwice(v, n.seen, v', op.remote, path, m);
  }

  lemma LookedTwice(v: View, seen: View, v': View, remote: Remote, path: Path, m: Moment)
    requires LookupEffects(v, seen, remote, Parent(path)) && LookupEffects(seen, v', remote, path)
    requires m.view == v && MarksOk(m)
    ensures MarksTrue(v'.overlay, m.trashed) && TasksMatch(v'.overlay, m.tasks)
  {
    hide LookupEffects, MarksTrue, TasksMatch, TombstonesAfter;
    LookupTombstones(v, seen, remote, Parent(path), path);
    TasksStillMatch(v.overlay, seen.overlay, path, Nothing, m.tasks, m.trashed);
    LookupTombstones(seen, v', remote, path, path);
    TasksStillMatch(seen.overlay, v'.overlay, path, Nothing, m.tasks, m.trashed);
  }

  lemma ListMarks(c: Config, m: Moment, op: Op, n: Note, m': Moment)
    requires op.List? && MarksOk(m) && ListRecorded(c, m, op, n, m')
    ensures MarksOk(m') && MarksTrue(n.seen.overlay, m.trashed)
  {
    hide LookupEffects, MarksTrue, TasksMatch, ListedFrom, FolderItems, CachedAll, SettledIds, TombstonesAfter, BeforeList;
    LookupTombstones(m.view, n.seen, op.remote, op.path, op.path);
    TasksStillMatch(m.view.overlay, n.seen.overlay, op.path, Nothing, m.tasks, m.trashed);
    match FolderItems(m.view, op.remote, op.path)
    case Err(_) =>
    case Ok(items) =>
      ListTombstones(n.seen, m'.view, op.path, items, n.order, n.output.value);
      TasksStillMatch(n.seen.overlay, m'.view.overlay, op.path, Nothing, m.tasks, m.trashed);
  }

  /** While deletes are separate, every mark of a run is true, and what is trashed was trashed by one of its steps. */
  lemma {:induction false} MarksStay(c: Config, ops: seq<Op>, notes: seq<Note>, moments: seq<Moment>, n: int)
    requires RunRecorded(c, ops, notes, moments) && 0 <= n <= |ops| && Separate(ops, notes, moments, n)
    ensures MarksOk(moments[n]) && TrashingOnRecord(ops, moments, n)
    decreases n
  {
    hide StepRecorded, StepKept, MomentOk, Pending;
    if n > 0 {
      MarksStay(c, ops, notes, moments, n - 1);
      assert MomentOk(c, moments[n - 1]);
      assert StepRecorded(c, moments[n - 1], ops[n - 1], notes[n - 1], moments[n - 1 + 1]);
      assert LeftAt(ops, notes, n - 1).Some? && !LeftAt(ops, notes, n - 1).value.1.Nothing? ==>
        !Pending(moments[n - 1].tasks, LeftAt(ops, notes, n - 1).value.0);
      StepMarks(c, moments[n - 1], ops[n - 1], notes[n - 1], moments[n]);
      TrashedGrows(c, ops, notes, moments, n - 1);
    }
  }

  lemma TrashedGrows(c: Config, ops: seq<Op>, notes: seq<Note>, moments: seq<Moment>, n: int)
    requires 0 <= n < |ops| && |moments| == |ops| + 1 && |notes| == |ops|
    requires TrashingOnRecord(ops, moments, n) && StepRecorded(c, moments[n], ops[n], notes[n], moments[n + 1])
    ensures TrashingOnRecord(ops, moments, n + 1)
  {
    hide LookupEffects, MetadataAt, RowsAfterLook, FolderItems, UploadTarget, CachePut, Resolve, Satisfiable, FaithfulAt, Fetch,
         UploadLanded, ListedFrom, CachedAll, SettledIds, MoveAnswered, OnlySlotChanged, DeleteAnswer, DeleteLeft, ProviderMoved;
    var trashed := moments[n + 1].trashed;
    forall id | id in trashed ensures exists k :: k < n + 1 && Trashes(ops, moments, k, id) {
      if id in moments[n].trashed {
        var k :| k < n && Trashes(ops, moments, k, id);
      } else {
        assert Trashes(ops, moments, n, id);
      }
    }
  }

  /** A list unhides only what was trashed, what it does not see, and what has its tombstone in the folder listed. */
  lemma LiftedForGood(c: Config, ops: seq<Op>, notes: seq<Note>, moments: seq<Moment>, k: int, id: string)
    requires RunRecorded(c, ops, notes, moments) && 0 <= k < |ops| && Separate(ops, notes, moments, k) && Lifts(ops, moments, k, id)
    ensures Misses(ops, moments, k, id)
    ensures exists l :: l < k && Trashes(ops, moments, l, id)
  {
    hide StepRecorded, StepKept, MomentOk, Separate, SettledIds, Trashes;
    MarksStay(c, ops, notes, moments, k);
    var items :| Sees(ops, moments, k, items)
      && id in SettledIds(BeforeList(moments[k].view, ops[k].path).children, ops[k].path, Ids(items));
    ChildrenMarks(moments[k].view, ops[k].path, moments[k].trashed);
    LiftedAreTrashed(BeforeList(moments[k].view, ops[k].path).children, ops[k].path, Ids(items), moments[k].trashed);
    var p := SettledHome(moments[k].view, ops[k].path, Ids(items), id);
  }

  /** The tombstone whose id a list unhides. */
  lemma SettledHome(v: View, folder: Path, listed: set<string>, id: string) returns (p: Path)
    requires id in SettledIds(BeforeList(v, folder).children, folder, listed)
    ensures BuriedIn(v, folder, p, id) && id !in listed
  {
    p :| p in Settled(BeforeList(v, folder).children, folder, listed) && BeforeList(v, folder).children[p].remoteId == Some(id);
  }

  lemma ChildrenMarks(v: View, folder: Path, trashed: set<string>)
    requires MarksTrue(v.overlay, trashed)
    ensures MarksTrue(BeforeList(v, folder).children, trashed)
  {
  }

  /** Main result on deleted objects: in every run of the store, between the accepted delete of an object and a list
      that emits it before its time, the object had been trashed, and after that a list of the folder of its tombstone
      had found it missing from the listing; provided no path was deleted again while an earlier delete task of it was running. */
  lemma DeletedStaysHidden(c: Config, ops: seq<Op>, notes: seq<Note>, moments: seq<Moment>, i: int, j: int, id: string)
    requires RunRecorded(c, ops, notes, moments) && 0 <= i < j < |ops| && Separate(ops, notes, moments, j)
    requires Deletes(ops, notes, i, id) && Emits(ops, moments, j, id)
    requires moments[j].view.now < moments[i].view.now + c.tombstoneTtl
    ensures exists k, l :: i < k < j && l < k && Trashes(ops, moments, l, id) && Misses(ops, moments, k, id)
  {
    hide RunRecorded, Lifts, Trashes, Misses, Deletes, Emits;
    HiddenUntilLifted(c, ops, notes, moments, i, j, id);
    var k :| i < k < j && Lifts(ops, moments, k, id);
    LiftsInRange(ops, moments, k, id);
    LiftedForGood(c, ops, notes, moments, k, id);
  }

  lemma LiftsInRange(ops: seq<Op>, moments: seq<Moment>, k: int, id: string)
    requires Lifts(ops, moments, k, id)
    ensures 0 <= k < |ops|
  {
  }
}
