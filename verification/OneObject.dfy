/**
 Runs of uploads to one path, with lists, metadata reads and downloads of any path in between: all uploads end
 up in one provider object.
 */
module OneObject {
  import opened Wrappers
  import opened CloudTypes
  import opened Lookup
  import opened ListMerge
  import opened Contents
  import opened Steps
  import opened Records
  import MetadataCache

  // ------------------------------------------------------------------ what memory and the provider say of the path

  /** The provider may list `p` late, or not at all, but it lists no other object there. */
  ghost predicate NoOther(v: View, remote: Remote, p: Path, id: string) {
    FolderItems(v, remote, Parent(p)).Ok? ==>
      forall item :: item in FolderItems(v, remote, Parent(p)).value && item.name == Base(p) && !Hidden(v.hidden, v.now, item.id) ==>
        item.id == id && !item.isFolder
  }

  /** The provider lists the file `id` at `p`, and nothing else under that name in any case. */
  ghost predicate Shows(v: View, remote: Remote, p: Path, id: string) {
    && FolderItems(v, remote, Parent(p)).Ok?
    && exists i :: 0 <= i < |FolderItems(v, remote, Parent(p)).value| && ShowsAt(v, FolderItems(v, remote, Parent(p)).value, i, p, id)
  }

  ghost predicate ShowsAt(v: View, items: seq<Item>, i: nat, p: Path, id: string)
    requires i < |items|
  {
    && items[i].id == id && !items[i].isFolder && Matches(v, Parent(p), Base(p), items[i])
    && forall j :: 0 <= j < |items| && Lower(items[j].name) == Lower(Base(p)) ==> items[j] == items[i]
  }

  lemma LookupKeepsTied(v: View, v': View, remote: Remote, looked: Path, p: Path, id: string)
    requires LookupEffects(v, v', remote, looked) && p != []
    requires Tied(v, p, id) && NoOther(v, remote, p, id)
    ensures Tied(v', p, id)
  {
    hide FolderItems;
  }

  lemma ListKeepsTied(v: View, seen: View, v': View, remote: Remote, folder: Path, items: seq<Item>, order: seq<Path>,
                      output: seq<Metadata>, p: Path, id: string)
    requires LookupEffects(v, seen, remote, folder) && FolderItems(v, remote, folder) == Ok(items)
    requires ListedFrom(seen, v', folder, items, BeforeList(seen, folder), order, output) && SlotsOk(v.overlay) && p != []
    requires Tied(v, p, id) && NoOther(v, remote, p, id)
    ensures Tied(v', p, id)
  {
    hide FolderItems, LearnsFrom, SameBelow, Remembers, Enumerates, Keyed, HiddenAfterList, SettledIds, ToMetadata, PassOk;
    var b := BeforeList(seen, folder);
    LookupKeepsTied(v, seen, remote, folder, p, id);
    FoundIsTied(v, seen, remote, folder, items, b, p, id);
    PassesKeep(b, items);
    WaitingIsTied(v, seen, b, items, p, id);
  }

  /** What the pass remembers at `p` is the object the provider is honest about. */
  lemma FoundIsTied(v: View, seen: View, remote: Remote, folder: Path, items: seq<Item>, b: Before, p: Path, id: string)
    requires Aged(v, seen) && FolderItems(v, remote, folder) == Ok(items) && NoOther(v, remote, p, id) && p != []
    requires b.folder == folder && b.hidden == seen.hidden && b.now == seen.now
    ensures var m := MergeListing(b, items); p in m.found ==> m.found[p].id == id && !m.found[p].isFolder
  {
    hide FolderItems;
    PassesKeep(b, items);
    var m := MergeListing(b, items);
    if p in m.found {
      assert FoundOk(b, items, m, p);
      assert m.found[p] in items && Parent(p) == folder && m.found[p].name == Base(p);
    }
  }

  lemma WaitingIsTied(v: View, seen: View, b: Before, items: seq<Item>, p: Path, id: string)
    requires Aged(v, seen) && SlotsOk(v.overlay) && PassOk(b, items, MergeListing(b, items))
    requires b.children == ChildrenOf(seen.overlay, seen.now, b.folder) && Tied(seen, p, id)
    ensures var m := MergeListing(b, items); p in Waiting(m) ==> m.children[p].item.id == id && !m.children[p].item.isFolder
  {
    hide ToMetadata, FoundOk;
    if p in MergeListing(b, items).children {
      assert SlotOk(p, v.overlay[p]);
    }
  }

  /** An upload to a tied path goes to the tied object, or is refused because it may not overwrite. While memory
      holds the path it needs nothing from the provider; after that, the listing must show the object. */
  lemma TiedIsTarget(v: View, remote: Remote, p: Path, overwrite: bool, id: string, target: Option<string>)
    requires p != [] && Tied(v, p, id) && (Known(v, p) || Shows(v, remote, p, id))
    requires TargetOf(v, remote, p, overwrite) == Ok(target)
    ensures target == Some(id)
  {
    if !Known(v, p) {
      ShownIsTarget(v, remote, p, overwrite, id, target);
    }
  }

  lemma ShownIsTarget(v: View, remote: Remote, p: Path, overwrite: bool, id: string, target: Option<string>)
    requires p != [] && !Known(v, p) && Shows(v, remote, p, id) && TargetOf(v, remote, p, overwrite) == Ok(target)
    ensures target == Some(id)
  {
    var items := FolderItems(v, remote, Parent(p)).value;
    var i :| 0 <= i < |items| && ShowsAt(v, items, i, p, id);
    FindsTheOnlyMatch(v, Parent(p), Base(p), items, i);
  }

  // ------------------------------------------------------------------ how long memory keeps the path

  /** Memory holds `p`: an upload that lasts at least until then, or, without a slot, an item, which nothing forgets. */
  ghost predicate Held(v: View, p: Path, until: int) {
    if p in v.overlay then v.overlay[p].state == Uploaded && v.overlay[p].expiresAt >= until else p in v.pathToItem
  }

  /** Held while there is time. */
  ghost predicate HeldFor(v: View, p: Path, until: int) {
    v.now < until ==> Held(v, p, until)
  }

  lemma HeldIsKnown(v: View, p: Path, until: int)
    requires HeldFor(v, p, until) && v.now < until
    ensures Known(v, p)
  {
  }

  lemma LookupHolds(v: View, v': View, remote: Remote, looked: Path, p: Path, until: int)
    requires LookupEffects(v, v', remote, looked) && HeldFor(v, p, until)
    ensures v'.now == v.now && HeldFor(v', p, until)
  {
    hide LearnsFrom, SameBelow;
    assert p in v.overlay && v.now < v.overlay[p].expiresAt ==> Live(v.overlay, v.now, p);
  }

  /** A list that retires the upload remembers what it found instead. */
  lemma ListHolds(v: View, seen: View, v': View, remote: Remote, folder: Path, items: seq<Item>, order: seq<Path>,
                  output: seq<Metadata>, p: Path, until: int)
    requires LookupEffects(v, seen, remote, folder) && HeldFor(v, p, until)
    requires ListedFrom(seen, v', folder, items, BeforeList(seen, folder), order, output)
    ensures v'.now == v.now && HeldFor(v', p, until)
  {
    hide LookupEffects, Enumerates, Keyed, HiddenAfterList, HeldFor, ListOutput, MemoryAfterList, OverlayAfterList;
    LookupHolds(v, seen, remote, folder, p, until);
    PassHolds(seen, v', BeforeList(seen, folder), items, p, until);
  }

  lemma PassHolds(seen: View, v': View, b: Before, items: seq<Item>, p: Path, until: int)
    requires HeldFor(seen, p, until) && b == BeforeList(seen, b.folder) && v'.now == seen.now
    requires v'.overlay == OverlayAfterList(seen.overlay, b, items)
    requires v'.pathToItem == MemoryAfterList(seen.pathToItem, seen.overlay, b, items)
    ensures HeldFor(v', p, until)
  {
    hide ToMetadata, FoundOk, Ids;
    PassesKeep(b, items);
    if p in seen.overlay && seen.now < until {
      assert p in v'.overlay ==> v'.overlay[p] == seen.overlay[p];
      assert p !in v'.overlay ==> p in b.children && p in MergeListing(b, items).found;
    }
  }

  /** An upload that landed holds its path for its whole time. */
  lemma LandedHolds(v: View, v': View, path: Path, uploaded: Item, pending: bool, size: nat, folderId: string, expiresAt: int)
    requires UploadLanded(v, v', path, uploaded, pending, size, folderId, expiresAt)
    ensures HeldFor(v', path, expiresAt)
  {
    hide Thinned, HiddenPruned;
  }

  // ------------------------------------------------------------------ runs on one path

  /** A step that may come between the uploads to `p`. */
  predicate About(op: Op, p: Path) {
    match op
    case Upload(path, _, _, _, _) => path == p
    case List(_, _) => true
    case GetMetadata(_, _) => true
    case OpenRead(_, _, _) => true
    case Rename(_, _, _) => true
    case Tick(_) => true
    case _ => false
  }

  /** The provider does not mislead step `op` about `p`, whose object is `id`: it lists no other object there, and from
      the time `until` on, it does list that object. */
  ghost predicate Honest(m: Moment, op: Op, n: Note, p: Path, id: string, until: int) {
    match op
    case Upload(_, _, _, remote, _) =>
      n.Uploading? ==>
        && NoOther(m.view, remote, p, id) && NoOther(n.seen, remote, p, id)
        && (Took(m, op, n) && m.view.now >= until ==> Shows(n.seen, remote, p, id))
    case List(_, remote) => NoOther(m.view, remote, p, id)
    case GetMetadata(_, remote) => NoOther(m.view, remote, p, id)
    case OpenRead(_, _, remote) => NoOther(m.view, remote, p, id)
    case _ => true
  }

  lemma RefusedKeepsTied(v: View, seen: View, v': View, remote: Remote, p: Path, id: string)
    requires LookupEffects(v, seen, remote, Parent(p)) && LookupEffects(seen, v', remote, p) && p != []
    requires Tied(v, p, id) && NoOther(v, remote, p, id) && NoOther(seen, remote, p, id)
    ensures Tied(v', p, id)
  {
    hide LookupEffects, Tied, NoOther;
    LookupKeepsTied(v, seen, remote, Parent(p), p, id);
    LookupKeepsTied(seen, v', remote, p, p, id);
  }

  /** An upload of a run: it goes to the tied object, which stays tied. */
  lemma UploadStep(c: Config, m: Moment, op: Op, n: Note, m': Moment, id: string, until: int)
    requires op.Upload? && op.path != [] && UploadRecorded(c, m, op, n, m') && Possible(m, op.answer)
    requires Tied(m.view, op.path, id) && HeldFor(m.view, op.path, until) && Honest(m, op, n, op.path, id, until)
    requires op.answer.Accepted? ==> op.answer.disclosed
    ensures Tied(m'.view, op.path, id)
    ensures Took(m, op, n) ==> TargetAt(m, op, n) == Some(id)
    ensures id in m.provider ==>
      m'.provider.Keys == m.provider.Keys && (Took(m, op, n) ==> m'.provider[id].bytes == op.source)
    ensures !Took(m, op, n) ==> m'.provider == m.provider
  {
    hide LookupEffects, Tied, NoOther, UploadLanded, UploadedItem, CachePut, TargetOf, Known, Shows, HeldFor;
    var remote, p := op.remote, op.path;
    LookupKeepsTied(m.view, n.seen, remote, Parent(p), p, id);
    LookupHolds(m.view, n.seen, remote, Parent(p), p, until);
    if m.view.now < until {
      HeldIsKnown(n.seen, p, until);
    }
    match UploadTarget(m.view, n.seen, remote, p, op.overwrite)
    case Err(_) => RefusedKeepsTied(m.view, n.seen, m'.view, remote, p, id);
    case Ok((folderId, target)) =>
      if !op.answer.Refused? {
        TiedIsTarget(n.seen, remote, p, op.overwrite, id, target);
      }
      if !op.answer.Accepted? {
        RefusedKeepsTied(m.view, n.seen, m'.view, remote, p, id);
      }
  }

  /** Any other step of such a run keeps the path tied and the provider's objects as they are. */
  lemma OtherStep(c: Config, m: Moment, op: Op, n: Note, m': Moment, p: Path, id: string, until: int)
    requires p != [] && About(op, p) && !op.Upload? && StepRecorded(c, m, op, n, m') && SlotsOk(m.view.overlay)
    requires Tied(m.view, p, id) && Honest(m, op, n, p, id, until)
    ensures Tied(m'.view, p, id)
    ensures m'.provider.Keys == m.provider.Keys
    ensures id in m.provider ==> m'.provider[id].bytes == m.provider[id].bytes
  {
    hide LookupEffects, MetadataAt, RowsAfterLook, FolderItems, CachePut, Resolve, Satisfiable, FaithfulAt, Fetch, ListedFrom,
         CachedAll, SettledIds, SlotsOk, NoOther, BeforeList;
    match op
    case List(folder, remote) =>
      match FolderItems(m.view, remote, folder) {
        case Err(_) => LookupKeepsTied(m.view, n.seen, remote, folder, p, id);
        case Ok(items) => ListKeepsTied(m.view, n.seen, m'.view, remote, folder, items, n.order, n.output.value, p, id);
      }
    case GetMetadata(path, remote) => LookupKeepsTied(m.view, m'.view, remote, path, p, id);
    case OpenRead(path, _, remote) => LookupKeepsTied(m.view, m'.view, remote, path, p, id);
    case _ =>
  }

  /** Every step of such a run but an upload that landed leaves the path held as long as it was. */
  lemma StepHolds(c: Config, m: Moment, op: Op, n: Note, m': Moment, p: Path, until: int)
    requires About(op, p) && StepRecorded(c, m, op, n, m') && HeldFor(m.view, p, until)
    requires !(Took(m, op, n) && op.answer.Accepted?)
    ensures HeldFor(m'.view, p, until)
  {
    hide LookupEffects, MetadataAt, RowsAfterLook, FolderItems, CachePut, Satisfiable, FaithfulAt, Fetch, ListedFrom, CachedAll,
         SettledIds, BeforeList, UploadTarget, UploadLanded, ProviderAfter, Resolve, Held;
    match op
    case Upload(path, _, _, remote, answer) =>
      if Possible(m, answer) {
        LookupHolds(m.view, n.seen, remote, Parent(path), p, until);
        LookupHolds(n.seen, m'.view, remote, path, p, until);
      }
    case List(folder, remote) =>
      match FolderItems(m.view, remote, folder) {
        case Err(_) => LookupHolds(m.view, n.seen, remote, folder, p, until);
        case Ok(items) => ListHolds(m.view, n.seen, m'.view, remote, folder, items, n.order, n.output.value, p, until);
      }
    case GetMetadata(path, remote) => LookupHolds(m.view, m'.view, remote, path, p, until);
    case OpenRead(path, _, remote) => LookupHolds(m.view, m'.view, remote, path, p, until);
    case Tick(_) => TimeHolds(m.view, m'.view, p, until);
    case _ =>
  }

  lemma TimeHolds(v: View, v': View, p: Path, until: int)
    requires HeldFor(v, p, until) && v'.now >= v.now && v' == v.(now := v'.now)
    ensures HeldFor(v', p, until)
  {
  }

  lemma UploadHolds(c: Config, m: Moment, op: Op, n: Note, m': Moment)
    requires op.Upload? && UploadRecorded(c, m, op, n, m') && Took(m, op, n) && op.answer.Accepted?
    ensures HeldFor(m'.view, op.path, m.view.now + c.uploadTtl)
  {
    hide LookupEffects, UploadLanded, UploadedItem, CachePut, UploadTarget, ProviderAfter, Tied, LearnsElsewhere, HeldFor;
    var (folderId, target) := UploadTarget(m.view, n.seen, op.remote, op.path, op.overwrite).value;
    LandedHolds(m.view, m'.view, op.path, UploadedItem(folderId, Base(op.path), |op.source|, target, op.answer), !op.answer.disclosed,
                |op.source|, folderId, m.view.now + c.uploadTtl);
  }

  /** Step `k` is an upload that ended in an object: the provider took its bytes. */
  ghost predicate TookAt(ops: seq<Op>, notes: seq<Note>, moments: seq<Moment>, k: int) {
    0 <= k < |ops| && k < |notes| && k < |moments| && Took(moments[k], ops[k], notes[k])
  }

  /** Step `f` is an upload to `p` whose answer arrived with the object's id. */
  ghost predicate Answered(ops: seq<Op>, notes: seq<Note>, moments: seq<Moment>, p: Path, f: int) {
    TookAt(ops, notes, moments, f) && ops[f].path == p && ops[f].answer.Accepted? && ops[f].answer.disclosed
  }

  function TimeAt(moments: seq<Moment>, k: int): int {
    if 0 <= k < |moments| then moments[k].view.now else 0
  }

  /** Until when the entry of the last answered upload to `p` lasts, of the steps from `f` up to `n`. */
  ghost function LastsUntil(c: Config, ops: seq<Op>, notes: seq<Note>, moments: seq<Moment>, p: Path, f: int, n: int): int
    decreases n - f
  {
    if n <= f + 1 then TimeAt(moments, f) + c.uploadTtl
    else if Answered(ops, notes, moments, p, n - 1) then TimeAt(moments, n - 1) + c.uploadTtl
    else LastsUntil(c, ops, notes, moments, p, f, n - 1)
  }

  /** From after step `f` up to step `n` the run is about `p`, and the provider is honest about it: it discloses the ids
      of uploads, lists no other object at `p`, and lists the object by the time the entry of its last upload ends. */
  ghost predicate HonestRun(c: Config, ops: seq<Op>, notes: seq<Note>, moments: seq<Moment>, p: Path, f: int, n: int, id: string) {
    forall k :: f < k < n && 0 <= k < |ops| && k < |notes| && k < |moments| ==>
      && About(ops[k], p) && Honest(moments[k], ops[k], notes[k], p, id, LastsUntil(c, ops, notes, moments, p, f, k))
      && (ops[k].Upload? && ops[k].answer.Accepted? ==> ops[k].answer.disclosed)
  }

  /** The bytes of the last upload the provider took, of the steps from `f` up to `n`. */
  ghost function LastSent(ops: seq<Op>, notes: seq<Note>, moments: seq<Moment>, f: int, n: int): Bytes
    requires TookAt(ops, notes, moments, f) && f < n <= |ops|
    decreases n - f
  {
    if n == f + 1 then ops[f].source
    else if TookAt(ops, notes, moments, n - 1) then ops[n - 1].source
    else LastSent(ops, notes, moments, f, n - 1)
  }

  /** What an answered upload leaves. */
  lemma AnsweredTies(c: Config, ops: seq<Op>, notes: seq<Note>, moments: seq<Moment>, p: Path, f: nat)
    requires RunRecorded(c, ops, notes, moments) && p != [] && Answered(ops, notes, moments, p, f)
    ensures var id := ObjectAt(moments[f], ops[f], notes[f]);
      Tied(moments[f + 1].view, p, id) && id in moments[f + 1].provider && moments[f + 1].provider[id].bytes == ops[f].source
  {
    hide StepKept, MomentOk, LookupEffects, UploadLanded, Tied, CachePut, TargetOf;
    assert StepRecorded(c, moments[f], ops[f], notes[f], moments[f + 1]);
  }

  /** Step `k` is an upload that ended in the object `id`. */
  ghost predicate EndedIn(ops: seq<Op>, notes: seq<Note>, moments: seq<Moment>, k: int, id: string) {
    TookAt(ops, notes, moments, k) && ObjectAt(moments[k], ops[k], notes[k]) == id
  }

  /** An upload the provider took at step `k` replaced the object `id`. */
  ghost predicate ReplacedAt(ops: seq<Op>, notes: seq<Note>, moments: seq<Moment>, k: nat, id: string) {
    TookAt(ops, notes, moments, k) ==> TargetAt(moments[k], ops[k], notes[k]) == Some(id)
  }

  /** What the main result says of step `n`. */
  ghost predicate Stays(c: Config, ops: seq<Op>, notes: seq<Note>, moments: seq<Moment>, p: Path, f: nat, n: nat, id: string) {
    && f < n <= |ops| && |notes| == |ops| && |moments| == |ops| + 1 && TookAt(ops, notes, moments, f)
    && Tied(moments[n].view, p, id) && HeldFor(moments[n].view, p, LastsUntil(c, ops, notes, moments, p, f, n))
    && moments[n].provider.Keys == moments[f + 1].provider.Keys && id in moments[n].provider
    && moments[n].provider[id].bytes == LastSent(ops, notes, moments, f, n)
    && forall k :: f < k < n ==> ReplacedAt(ops, notes, moments, k, id)
  }

  lemma {:induction false} StaysObject(c: Config, ops: seq<Op>, notes: seq<Note>, moments: seq<Moment>, p: Path, f: nat, n: nat, id: string)
    requires RunRecorded(c, ops, notes, moments) && p != [] && f < n <= |ops|
    requires Answered(ops, notes, moments, p, f) && EndedIn(ops, notes, moments, f, id)
    requires HonestRun(c, ops, notes, moments, p, f, n, id)
    ensures Stays(c, ops, notes, moments, p, f, n, id)
    decreases n
  {
    hide *;
    Lengths(c, ops, notes, moments);
    if n == f + 1 {
      StaysAtFirst(c, ops, notes, moments, p, f, id);
    } else {
      HonestBefore(c, ops, notes, moments, p, f, n, id);
      StaysObject(c, ops, notes, moments, p, f, n - 1, id);
      OneMoreStep(c, ops, notes, moments, p, f, n - 1, id);
      HeldOneMore(c, ops, notes, moments, p, f, n - 1, id);
      StaysOneMore(c, ops, notes, moments, p, f, n - 1, id);
    }
  }

  lemma Lengths(c: Config, ops: seq<Op>, notes: seq<Note>, moments: seq<Moment>)
    requires RunRecorded(c, ops, notes, moments)
    ensures |notes| == |ops| && |moments| == |ops| + 1
  {
    hide StepRecorded, StepKept, MomentOk;
  }

  lemma StaysAtFirst(c: Config, ops: seq<Op>, notes: seq<Note>, moments: seq<Moment>, p: Path, f: nat, id: string)
    requires RunRecorded(c, ops, notes, moments) && p != [] && f < |ops|
    requires Answered(ops, notes, moments, p, f) && EndedIn(ops, notes, moments, f, id)
    ensures Stays(c, ops, notes, moments, p, f, f + 1, id)
  {
    hide RunRecorded, Tied, Took, ReplacedAt, Answered, StepRecorded;
    Lengths(c, ops, notes, moments);
    TookUploads(ops, notes, moments, f);
    AnsweredTies(c, ops, notes, moments, p, f);
    AnsweredHolds(c, ops, notes, moments, p, f);
    assert LastSent(ops, notes, moments, f, f + 1) == ops[f].source;
  }

  lemma StaysOneMore(c: Config, ops: seq<Op>, notes: seq<Note>, moments: seq<Moment>, p: Path, f: nat, n: nat, id: string)
    requires Stays(c, ops, notes, moments, p, f, n, id) && n < |ops|
    requires StepTied(moments[n], ops[n], notes[n], moments[n + 1], p, id)
    requires HeldFor(moments[n + 1].view, p, LastsUntil(c, ops, notes, moments, p, f, n + 1))
    ensures Stays(c, ops, notes, moments, p, f, n + 1, id)
  {
    hide Tied, Took, ReplacedAt, StepTied;
    WhatTiedMeans(ops, notes, moments, p, n, id);
    if TookAt(ops, notes, moments, n) {
      TookUploads(ops, notes, moments, n);
    }
    assert LastSent(ops, notes, moments, f, n + 1)
        == if TookAt(ops, notes, moments, n) then ops[n].source else LastSent(ops, notes, moments, f, n);
  }

  lemma AnsweredHolds(c: Config, ops: seq<Op>, notes: seq<Note>, moments: seq<Moment>, p: Path, k: nat)
    requires RunRecorded(c, ops, notes, moments) && k < |ops| && Answered(ops, notes, moments, p, k)
    ensures k + 1 < |moments| && HeldFor(moments[k + 1].view, p, TimeAt(moments, k) + c.uploadTtl)
  {
    hide StepKept, MomentOk, UploadRecorded, HeldFor;
    assert StepRecorded(c, moments[k], ops[k], notes[k], moments[k + 1]);
    UploadHolds(c, moments[k], ops[k], notes[k], moments[k + 1]);
  }

  lemma HeldOneMore(c: Config, ops: seq<Op>, notes: seq<Note>, moments: seq<Moment>, p: Path, f: nat, k: nat, id: string)
    requires RunRecorded(c, ops, notes, moments) && f < k < |ops|
    requires HonestRun(c, ops, notes, moments, p, f, k + 1, id) && Stays(c, ops, notes, moments, p, f, k, id)
    ensures HeldFor(moments[k + 1].view, p, LastsUntil(c, ops, notes, moments, p, f, k + 1))
  {
    hide *;
    Lengths(c, ops, notes, moments);
    var m, m', until := moments[k], moments[k + 1], LastsUntil(c, ops, notes, moments, p, f, k);
    if Answered(ops, notes, moments, p, k) {
      AnsweredHolds(c, ops, notes, moments, p, k);
      LastsFromHere(c, ops, notes, moments, p, f, k);
    } else {
      StepTaken(c, ops, notes, moments, k);
      NotAnswered(c, ops, notes, moments, p, f, k, id);
      StillHeld(c, ops, notes, moments, p, f, k, id);
      StepHolds(c, m, ops[k], notes[k], m', p, until);
    }
  }

  lemma StepTaken(c: Config, ops: seq<Op>, notes: seq<Note>, moments: seq<Moment>, k: nat)
    requires RunRecorded(c, ops, notes, moments) && k < |ops|
    ensures k < |notes| && k + 1 < |moments| && StepRecorded(c, moments[k], ops[k], notes[k], moments[k + 1])
  {
    hide StepRecorded, StepKept, MomentOk;
  }

  /** An upload of an honest run that was not answered did not land. */
  lemma NotAnswered(c: Config, ops: seq<Op>, notes: seq<Note>, moments: seq<Moment>, p: Path, f: nat, k: nat, id: string)
    requires HonestRun(c, ops, notes, moments, p, f, k + 1, id) && f < k < |ops| && k < |notes| && k < |moments|
    requires !Answered(ops, notes, moments, p, k)
    ensures About(ops[k], p) && !(Took(moments[k], ops[k], notes[k]) && ops[k].answer.Accepted?)
    ensures LastsUntil(c, ops, notes, moments, p, f, k + 1) == LastsUntil(c, ops, notes, moments, p, f, k)
  {
    hide Honest, ObjectAt;
    assert About(ops[k], p) && (ops[k].Upload? && ops[k].answer.Accepted? ==> ops[k].answer.disclosed);
  }

  lemma StillHeld(c: Config, ops: seq<Op>, notes: seq<Note>, moments: seq<Moment>, p: Path, f: nat, k: nat, id: string)
    requires Stays(c, ops, notes, moments, p, f, k, id)
    ensures HeldFor(moments[k].view, p, LastsUntil(c, ops, notes, moments, p, f, k))
  {
    hide Tied, Took, ReplacedAt, HeldFor;
  }

  lemma LastsFromHere(c: Config, ops: seq<Op>, notes: seq<Note>, moments: seq<Moment>, p: Path, f: nat, k: nat)
    requires f < k && Answered(ops, notes, moments, p, k)
    ensures LastsUntil(c, ops, notes, moments, p, f, k + 1) == TimeAt(moments, k) + c.uploadTtl
  {
  }

  lemma TookUploads(ops: seq<Op>, notes: seq<Note>, moments: seq<Moment>, k: int)
    requires TookAt(ops, notes, moments, k)
    ensures 0 <= k < |ops| && ops[k].Upload?
  {
  }

  lemma WhatStaysMeans(c: Config, ops: seq<Op>, notes: seq<Note>, moments: seq<Moment>, p: Path, f: nat, n: nat, id: string)
    requires Stays(c, ops, notes, moments, p, f, n, id)
    ensures Tied(moments[n].view, p, id)
    ensures moments[n].provider.Keys == moments[f + 1].provider.Keys && id in moments[n].provider
    ensures moments[n].provider[id].bytes == LastSent(ops, notes, moments, f, n)
    ensures forall k :: f < k < n && TookAt(ops, notes, moments, k) ==> TargetAt(moments[k], ops[k], notes[k]) == Some(id)
  {
    hide Tied, Took;
    forall k | f < k < n && TookAt(ops, notes, moments, k) ensures TargetAt(moments[k], ops[k], notes[k]) == Some(id) {
      assert ReplacedAt(ops, notes, moments, k, id);
    }
  }

  /** Main result on one path. From any upload to `p` on whose answer arrived, whatever further uploads to `p`, lists,
      metadata reads and downloads of any path a run makes, and however long listings lag while the entry of the last
      upload lasts: while the provider is honest about `p`, every upload to `p` replaces that upload's object, the provider gains no other, also when
      answers are lost, and the object holds what was uploaded last. */
  lemma {:induction false} OneObject(c: Config, ops: seq<Op>, notes: seq<Note>, moments: seq<Moment>, p: Path, f: nat, n: nat)
    requires RunRecorded(c, ops, notes, moments) && p != [] && f < n <= |ops| && Answered(ops, notes, moments, p, f)
    requires HonestRun(c, ops, notes, moments, p, f, n, ObjectAt(moments[f], ops[f], notes[f]))
    ensures var id := ObjectAt(moments[f], ops[f], notes[f]);
      && Tied(moments[n].view, p, id)
      && moments[n].provider.Keys == moments[f + 1].provider.Keys && id in moments[n].provider
      && moments[n].provider[id].bytes == LastSent(ops, notes, moments, f, n)
      && (forall k :: f < k < n && TookAt(ops, notes, moments, k) ==> TargetAt(moments[k], ops[k], notes[k]) == Some(id))
    decreases n
  {
    var id := ObjectAt(moments[f], ops[f], notes[f]);
    assert EndedIn(ops, notes, moments, f, id);
    hide *;
    StaysObject(c, ops, notes, moments, p, f, n, id);
    WhatStaysMeans(c, ops, notes, moments, p, f, n, id);
  }

  lemma HonestBefore(c: Config, ops: seq<Op>, notes: seq<Note>, moments: seq<Moment>, p: Path, f: nat, n: nat, id: string)
    requires HonestRun(c, ops, notes, moments, p, f, n, id) && n > 0
    ensures HonestRun(c, ops, notes, moments, p, f, n - 1, id)
  {
    hide Honest, About;
  }

  lemma WhatTiedMeans(ops: seq<Op>, notes: seq<Note>, moments: seq<Moment>, p: Path, k: nat, id: string)
    requires k < |ops| && k < |notes| && k + 1 < |moments|
    requires StepTied(moments[k], ops[k], notes[k], moments[k + 1], p, id)
    ensures var m, m' := moments[k], moments[k + 1];
      && Tied(m'.view, p, id) && m'.provider.Keys == m.provider.Keys && id in m.provider && id in m'.provider
      && m'.provider[id].bytes == (if TookAt(ops, notes, moments, k) then ops[k].source else m.provider[id].bytes)
      && ReplacedAt(ops, notes, moments, k, id)
  {
    hide Tied, Took;
  }

  lemma OneMoreStep(c: Config, ops: seq<Op>, notes: seq<Note>, moments: seq<Moment>, p: Path, f: nat, k: nat, id: string)
    requires RunRecorded(c, ops, notes, moments) && p != [] && f < k < |ops|
    requires HonestRun(c, ops, notes, moments, p, f, k + 1, id) && Stays(c, ops, notes, moments, p, f, k, id)
    ensures StepTied(moments[k], ops[k], notes[k], moments[k + 1], p, id)
  {
    hide StepKept, StepRecorded, Tied, Honest, Took, About, StepTied, PromisesKept, SlotsOk, ReplacedAt, HeldFor;
    assert MomentOk(c, moments[k]) && StepRecorded(c, moments[k], ops[k], notes[k], moments[k + 1]);
    assert About(ops[k], p);
    StepOnPath(c, moments[k], ops[k], notes[k], moments[k + 1], p, id, LastsUntil(c, ops, notes, moments, p, f, k));
  }

  /** A step keeps `p` tied to the object `id`, creates no other, and gives it new bytes exactly when it is an upload
      the provider took. */
  ghost predicate StepTied(m: Moment, op: Op, n: Note, m': Moment, p: Path, id: string) {
    && Tied(m'.view, p, id) && m'.provider.Keys == m.provider.Keys && id in m.provider && id in m'.provider
    && m'.provider[id].bytes == (if Took(m, op, n) then op.source else m.provider[id].bytes)
    && (Took(m, op, n) ==> TargetAt(m, op, n) == Some(id))
  }

  lemma StepOnPath(c: Config, m: Moment, op: Op, n: Note, m': Moment, p: Path, id: string, until: int)
    requires p != [] && About(op, p) && StepRecorded(c, m, op, n, m') && SlotsOk(m.view.overlay)
    requires Tied(m.view, p, id) && id in m.provider && HeldFor(m.view, p, until) && Honest(m, op, n, p, id, until)
    requires op.Upload? && op.answer.Accepted? ==> op.answer.disclosed
    ensures StepTied(m, op, n, m', p, id)
  {
    hide UploadRecorded, ListRecorded, LookRecorded, ReadRecorded, Tied, Honest, SlotsOk, HeldFor;
    if !op.Upload? {
      OtherStep(c, m, op, n, m', p, id, until);
    } else if Possible(m, op.answer) {
      UploadStep(c, m, op, n, m', id, until);
    }
  }

  /** What the provider holds after a run about `p`: what it held before, and the objects its uploads ended in. */
  lemma {:induction false} ProviderGains(c: Config, ops: seq<Op>, notes: seq<Note>, moments: seq<Moment>, p: Path, n: nat, id: string)
    requires RunRecorded(c, ops, notes, moments) && n <= |ops| && forall k :: 0 <= k < n ==> About(ops[k], p)
    ensures id in moments[n].provider <==>
      id in moments[0].provider
      || exists k :: k < n && EndedIn(ops, notes, moments, k, id)
    decreases n
  {
    hide StepKept, StepRecorded, MomentOk, Took, About;
    if n > 0 {
      ProviderGains(c, ops, notes, moments, p, n - 1, id);
      assert StepRecorded(c, moments[n - 1], ops[n - 1], notes[n - 1], moments[n - 1 + 1]);
      StepGains(c, moments[n - 1], ops[n - 1], notes[n - 1], moments[n], p);
      assert EndedIn(ops, notes, moments, n - 1, id) <==>
        TookAt(ops, notes, moments, n - 1) && ObjectAt(moments[n - 1], ops[n - 1], notes[n - 1]) == id;
    }
  }

  lemma StepGains(c: Config, m: Moment, op: Op, n: Note, m': Moment, p: Path)
    requires About(op, p) && StepRecorded(c, m, op, n, m')
    ensures m'.provider.Keys == m.provider.Keys + if Took(m, op, n) then {ObjectAt(m, op, n)} else {}
  {
    hide LookupEffects, UploadLanded, TargetOf, MetadataAt, RowsAfterLook, FolderItems, CachePut, Resolve, Satisfiable, FaithfulAt,
         Fetch, ListedFrom, CachedAll, SettledIds, BeforeList;
  }

  /** Of a whole run about `p`: every object the provider gained is that of the first upload that was answered, or of one
      of the uploads before it whose answers were lost. Without lost answers it gains one object. */
  lemma GainsOneObject(c: Config, ops: seq<Op>, notes: seq<Note>, moments: seq<Moment>, p: Path, f: nat, id: string)
    requires RunRecorded(c, ops, notes, moments) && p != [] && f < |ops| && Answered(ops, notes, moments, p, f)
    requires forall k :: 0 <= k < |ops| ==> About(ops[k], p)
    requires forall k :: 0 <= k < f && TookAt(ops, notes, moments, k) ==> ops[k].answer.Lost?
    requires HonestRun(c, ops, notes, moments, p, f, |ops|, ObjectAt(moments[f], ops[f], notes[f]))
    requires id in moments[|ops|].provider && id !in moments[0].provider
    ensures id == ObjectAt(moments[f], ops[f], notes[f])
         || exists k :: 0 <= k < f && EndedIn(ops, notes, moments, k, id) && ops[k].answer.Lost?
  {
    assert |notes| == |ops| && |moments| == |ops| + 1;
    hide *;
    GainedBySome(c, ops, notes, moments, p, f, id);
    var k :| k < f + 1 && EndedIn(ops, notes, moments, k, id);
    InBounds(ops, notes, moments, k, id);
    assert k == f || ops[k].answer.Lost?;
  }

  lemma InBounds(ops: seq<Op>, notes: seq<Note>, moments: seq<Moment>, k: int, id: string)
    requires EndedIn(ops, notes, moments, k, id)
    ensures 0 <= k < |ops| && TookAt(ops, notes, moments, k)
    ensures id == ObjectAt(moments[k], ops[k], notes[k])
  {
    hide Took;
  }

  lemma GainedBySome(c: Config, ops: seq<Op>, notes: seq<Note>, moments: seq<Moment>, p: Path, f: nat, id: string)
    requires RunRecorded(c, ops, notes, moments) && p != [] && f < |ops| && Answered(ops, notes, moments, p, f)
    requires forall k :: 0 <= k < |ops| ==> About(ops[k], p)
    requires HonestRun(c, ops, notes, moments, p, f, |ops|, ObjectAt(moments[f], ops[f], notes[f]))
    requires id in moments[|ops|].provider && id !in moments[0].provider
    ensures exists k :: k < f + 1 && EndedIn(ops, notes, moments, k, id)
  {
    var first := ObjectAt(moments[f], ops[f], notes[f]);
    assert EndedIn(ops, notes, moments, f, first);
    hide *;
    StaysObject(c, ops, notes, moments, p, f, |ops|, first);
    WhatStaysMeans(c, ops, notes, moments, p, f, |ops|, first);
    ProviderGains(c, ops, notes, moments, p, f + 1, id);
  }
}
