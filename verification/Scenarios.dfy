/**
 Concrete runs of the store that end in a state it would rather not be in. Each shows that a condition proved
 elsewhere is needed: `Contents.UploadFaithfulIff`, `Contents.TrashingFaithfulIff`, the mark condition of
 `TrashRemote`, and `Records.MovedShowsIff`.
 */
module Scenarios {
  import opened Wrappers
  import opened CloudTypes
  import opened Lookup
  import opened Contents
  import opened ListMerge
  import opened Spool
  import opened Steps
  import opened Store
  import MetadataCache

  const ROOT: Item := Item("0", "", None, true, 0, None, None, map[])

  function FileItem(id: string, name: string, size: nat): Item {
    Item(id, name, Some("0"), false, size, None, None, map[])
  }

  /** A provider that lists these items in every folder. */
  function Lists(items: seq<Item>): Remote {
    Remote(Ok(ROOT), (id: string) => Ok(items))
  }

  const NEW_FILE: UploadAnswer := Accepted("7", true, None, None)

  // ------------------------------------------------------------------ little memory

  /** Memory knows at most the root and the items at `known`, and at most `hides` is hidden. */
  ghost predicate KnowsAtMost(v: View, known: set<Path>, hides: set<string>) {
    && [] !in v.overlay && [] !in known && v.hidden.Keys <= hides
    && forall q :: q in v.pathToItem ==> q in known || (q == [] && v.pathToItem[q] == ROOT)
  }

  lemma RootResolves(v: View, items: seq<Item>, known: set<Path>, hides: set<string>)
    requires KnowsAtMost(v, known, hides)
    ensures Resolve(v, Lists(items), []) == Ok(Some(ROOT))
  {
  }

  /** A lookup of the root learns nothing else, nor does any lookup from empty listings. */
  lemma LookupKnows(v: View, v': View, items: seq<Item>, path: Path, known: set<Path>, hides: set<string>)
    requires KnowsAtMost(v, known, hides) && LookupEffects(v, v', Lists(items), path) && (path == [] || items == [])
    ensures KnowsAtMost(v', known, hides)
  {
    hide Remembers, Resolve;
    forall q | q in v'.pathToItem && q !in known ensures q == [] && v'.pathToItem[q] == ROOT {
      if items == [] {
        NothingListed(v, q, v'.pathToItem[q]);
      }
    }
  }

  lemma NothingListed(v: View, q: Path, item: Item)
    ensures !ListedAt(v, Lists([]), q, item)
  {
    hide Resolve;
  }

  /** An unknown path below the root is looked for in the listing. */
  lemma ListedInRoot(v: View, items: seq<Item>, known: set<Path>, hides: set<string>, p: Path)
    requires KnowsAtMost(v, known, hides) && |p| == 1 && p !in known && !Live(v.overlay, v.now, p)
    ensures Resolve(v, Lists(items), p) == Ok(LastMatch(v, [], p[0], items))
  {
    RootResolves(v, items, known, hides);
    assert Parent(p) == [] && Base(p) == p[0];
  }

  /** Where an upload below the root goes when nothing is listed and memory does not know the path. */
  lemma NewFileTarget(v: View, seen: View, known: set<Path>, hides: set<string>, p: Path)
    requires KnowsAtMost(v, known, hides) && LookupEffects(v, seen, Lists([]), []) && |p| == 1 && p !in known
    requires !LiveUpload(v.overlay, v.now, p)
    ensures UploadTarget(v, seen, Lists([]), p, true) == Ok((ROOT.id, None)) && KnowsAtMost(seen, known, hides)
  {
    RootResolves(v, [], known, hides);
    LookupKnows(v, seen, [], [], known, hides);
    assert Parent(p) == [];
    if !Live(seen.overlay, seen.now, p) {
      ListedInRoot(seen, [], known, hides, p);
    }
  }

  // ------------------------------------------------------------------ where the runs start

  /** A store that has just been started next to an empty spool directory, and keeps no copies. */
  method Started(provider: Provider) returns (s: O2CloudFileStore)
    ensures fresh(s) && fresh(s.cache) && s.Valid() && s.now == 0 && s.uploadTtl == 600 && s.tombstoneTtl == 600
    ensures s.overlay == map[] && s.provider == provider && s.cache.rows == map[] && s.trashed == {}
    ensures KnowsAtMost(s.Memory(), {}, {}) && Faithful(s.overlay, s.now, s.disk, s.provider)
  {
    var cache := new MetadataCache.MetadataCache(60, 60);
    s := new O2CloudFileStore(0, 0, 600, 600, cache, provider, map[], 0, 0);
  }

  /** One byte is uploaded to `/a` as object 7. */
  method UploadedOnce() returns (s: O2CloudFileStore)
    ensures fresh(s) && fresh(s.cache) && s.Valid() && s.now == 0 && s.uploadTtl == 600 && s.tombstoneTtl == 600 && s.trashed == {}
    ensures s.provider.Keys == {"7"} && Faithful(s.overlay, s.now, s.disk, s.provider)
    ensures KnowsAtMost(s.Memory(), {["a"]}, {}) && s.overlay.Keys == {["a"]} && ["b"] !in s.cache.rows
    ensures var e := s.overlay[["a"]]; e.state == Uploaded && e.remoteId == Some("7") && e.item.id == "7" && e.expiresAt == 600
    ensures AccountedSize(s.overlay[["a"]]) == 1 && s.overlay[["a"]].item.size == 1 && !s.overlay[["a"]].item.isFolder
  {
    hide O2CloudFileStore.Valid, LookupEffects, Faithful, WeakETag, MetadataCache.Encode, Resolve, TargetOf, UploadTarget, ListedAt;
    s := Started(map[]);
    ghost var v, d := s.Memory(), s.disk;
    var r;
    ghost var seen, folderId, target;
    r, seen, folderId, target := s.Upload(["a"], [1], true, Lists([]), NEW_FILE);
    NewFileTarget(v, seen, {}, {}, ["a"]);
    LearnedNothingElse(seen, s.Memory(), ["a"], {}, {});
    assert Spares(v.overlay, v.now, d, Some(["a"]), "7", [1], KeptCopies(s.overlay));
  }

  lemma LearnedNothingElse(v: View, v': View, p: Path, known: set<Path>, hides: set<string>)
    requires KnowsAtMost(v, known, hides) && LearnsElsewhere(v, v', Lists([]), p) && p != [] && [] !in v'.overlay
    requires v'.hidden.Keys <= hides
    ensures KnowsAtMost(v', known + {p}, hides)
  {
    hide ListedAt;
    forall q | q in v'.pathToItem && q !in known + {p} ensures q == [] && v'.pathToItem[q] == ROOT {
      NothingListed(v, q, v'.pathToItem[q]);
    }
  }

  /** After that, `/a` is moved to `/b`; the provider still lists nothing. */
  method UploadedAndMoved() returns (s: O2CloudFileStore)
    ensures fresh(s) && fresh(s.cache) && s.Valid() && s.now == 0 && s.tombstoneTtl == 600
    ensures s.provider.Keys == {"7"} && Faithful(s.overlay, s.now, s.disk, s.provider)
    ensures KnowsAtMost(s.Memory(), {["b"]}, {}) && ["a"] !in s.overlay && LiveUpload(s.overlay, s.now, ["b"])
    ensures s.overlay[["b"]].remoteId == Some("7") && AccountedSize(s.overlay[["b"]]) == 1
  {
    hide O2CloudFileStore.Valid, LookupEffects, Faithful, WeakETag, MetadataCache.Encode, Resolve, TargetOf, ListedAt, MoveAnswered,
         TombstonesAfter, PromisesAfter, RemoteMoveAnswer;
    s := UploadedOnce();
    ghost var v, rows := s.Memory(), s.cache.rows;
    var r, scheduled;
    ghost var folderId, seen, found, clear;
    r, scheduled, folderId, seen, found, clear := s.Move(["a"], ["b"], false, Lists([]), Ok(()), Ok(()));
    assert Parent(["b"]) == [];
    RootResolves(v, [], {["a"]}, {});
    MovedAside(v, seen, found, clear, s.Memory(), rows, folderId, Ok(()), Ok(()), r, scheduled, s.tombstoneTtl);
  }

  lemma MovedAside(v: View, seen: View, found: View, clear: View, v': View, rows: map<Path, MetadataCache.Row>, folderId: string,
                   trash: Result<()>, renamed: Result<()>, r: Result<Metadata>, scheduled: Scheduled, ttl: nat)
    requires KnowsAtMost(v, {["a"]}, {}) && v.overlay.Keys == {["a"]} && LiveUpload(v.overlay, v.now, ["a"]) && ["b"] !in rows
    requires LookupEffects(v, seen, Lists([]), []) && LookupEffects(seen, found, Lists([]), ["b"]) && v'.now == v.now
    requires MoveAnswered(v, seen, found, clear, v', rows, Lists([]), ["a"], ["b"], folderId, false, trash, renamed, r, scheduled, ttl)
    requires HidesAfter(v.hidden, v'.hidden, v.now, scheduled)
    ensures scheduled.Nothing? && KnowsAtMost(v', {["b"]}, {}) && ["a"] !in v'.overlay
    ensures ["b"] in v'.overlay && v'.overlay[["b"]] == MovedEntry(v.overlay[["a"]], ["b"], folderId)
  {
    hide ListedAt, RemoteMoveAnswer, MovedEntry, Resolve;
    LookupKnows(v, seen, [], [], {["a"]}, {});
    LookupKnows(seen, found, [], ["b"], {["a"]}, {});
    NotThere(v, seen, rows, ["b"]);
  }

  /** A path the overlay, the cache and the listings say nothing about is not there. */
  lemma NotThere(v: View, seen: View, rows: map<Path, MetadataCache.Row>, p: Path)
    requires KnowsAtMost(v, {["a"]}, {}) && v.overlay.Keys == {["a"]} && p !in rows && |p| == 1 && p != ["a"]
    requires LookupEffects(v, seen, Lists([]), []) && KnowsAtMost(seen, {["a"]}, {})
    ensures MetadataAt(seen, rows, Lists([]), p) == Ok(None)
  {
    hide Resolve, ListedAt;
    ListedInRoot(seen, [], {["a"]}, {}, p);
  }

  // ------------------------------------------------------------------ two entries, one object

  /** One byte is uploaded to `/a` and moved to `/b`. While the listing still shows the object at `/a`, an upload of no
      bytes to `/a` is sent to replace it, and the upload at `/b` is no longer what the provider holds. */
  method MovedUploadIsOverwritten() returns (s: O2CloudFileStore)
    ensures s.Valid() && LiveUpload(s.overlay, s.now, ["b"]) && !Faithful(s.overlay, s.now, s.disk, s.provider)
  {
    hide O2CloudFileStore.Valid, LookupEffects, Faithful, WeakETag, MetadataCache.Encode, Resolve, TargetOf, ListedAt, UploadTarget,
         LearnsElsewhere, Spares, ToMetadata;
    s := UploadedAndMoved();
    ghost var v, d := s.Memory(), s.disk;
    var r;
    ghost var seen, folderId, target;
    r, seen, folderId, target := s.Upload(["a"], [], true, Lists([FileItem("7", "a", 1)]), Accepted("8", true, None, None));
    StaleTarget(v, seen);
    OtherSize(v, d, KeptCopies(s.overlay));
  }

  lemma StaleTarget(v: View, seen: View)
    requires KnowsAtMost(v, {["b"]}, {}) && ["a"] !in v.overlay && LookupEffects(v, seen, Lists([FileItem("7", "a", 1)]), Parent(["a"]))
    ensures UploadTarget(v, seen, Lists([FileItem("7", "a", 1)]), ["a"], true) == Ok((ROOT.id, Some("7")))
  {
    hide ListedAt;
    assert Parent(["a"]) == [] && Join([], "a") == ["a"];
    RootResolves(v, [FileItem("7", "a", 1)], {["b"]}, {});
    LookupKnows(v, seen, [FileItem("7", "a", 1)], [], {["b"]}, {});
    ListedInRoot(seen, [FileItem("7", "a", 1)], {["b"]}, {}, ["a"]);
    OnlyItemFound(seen, "a", FileItem("7", "a", 1));
  }

  lemma OtherSize(v: View, d: Disk, kept: set<Path>)
    requires LiveUpload(v.overlay, v.now, ["b"]) && v.overlay[["b"]].remoteId == Some("7") && AccountedSize(v.overlay[["b"]]) == 1
    ensures !Spares(v.overlay, v.now, d, Some(["a"]), "7", [], kept)
  {
  }

  /** The only item of a listing, visible and of the right name, is found. */
  lemma OnlyItemFound(v: View, name: string, item: Item)
    requires Matches(v, [], name, item)
    ensures LastMatch(v, [], name, [item]) == Some(item)
  {
    FindsTheOnlyMatch(v, [], name, [item], 0);
  }

  /** From the same start, a delete of `/a`, where the listing still shows the object, trashes the object of `/b`. */
  method MovedUploadIsTrashed() returns (s: O2CloudFileStore)
    ensures s.Valid() && LiveUpload(s.overlay, s.now, ["b"]) && !Faithful(s.overlay, s.now, s.disk, s.provider)
  {
    hide O2CloudFileStore.Valid, LookupEffects, Faithful, WeakETag, MetadataCache.Encode, Resolve, ListedAt, TombstonesAfter,
         PromisesAfter, HidesAfter, LearnsFrom, ToMetadata, O2CloudFileStore.HiddenUntil;
    s := UploadedAndMoved();
    ghost var v := s.Memory();
    StaleLookup(v);
    var r := s.Delete(["a"], Lists([FileItem("7", "a", 1)]), Ok(()));
    assert r == Ok(TrashObject(FileItem("7", "a", 1)));
    assert LiveUpload(s.overlay, s.now, ["b"]) && s.overlay[["b"]].remoteId == Some("7");
    s.TrashRemote(["a"], FileItem("7", "a", 1), Trashed);
  }

  lemma StaleLookup(v: View)
    requires KnowsAtMost(v, {["b"]}, {}) && ["a"] !in v.overlay
    ensures Resolve(v, Lists([FileItem("7", "a", 1)]), ["a"]) == Ok(Some(FileItem("7", "a", 1)))
  {
    assert Join([], "a") == ["a"];
    ListedInRoot(v, [FileItem("7", "a", 1)], {["b"]}, {}, ["a"]);
    OnlyItemFound(v, "a", FileItem("7", "a", 1));
  }

  // ------------------------------------------------------------------ a mark that is not true

  /** `/a` is uploaded as object 7, deleted, and uploaded again as object 8; the delete task of object 7 has not run. */
  method DeletedAndUploadedAgain() returns (s: O2CloudFileStore, item: Item)
    ensures fresh(s) && fresh(s.cache) && s.Valid() && s.provider.Keys == {"7", "8"} && s.trashed == {} && item.id == "7"
    ensures LiveUpload(s.overlay, s.now, ["a"]) && s.overlay[["a"]].remoteId == Some("8") && s.overlay[["a"]].item.id == "8"
  {
    hide O2CloudFileStore.Valid, LookupEffects, Faithful, WeakETag, MetadataCache.Encode, Resolve, TargetOf, ListedAt, UploadTarget,
         TombstonesAfter, PromisesAfter, O2CloudFileStore.HiddenUntil, Spares, ToMetadata, LearnsElsewhere, LearnsFrom, HidesAfter,
         KnowsAtMost, OnlySlotChanged, Tied, Known, MetadataCache.Without, CachePut;
    s := UploadedOnce();
    ghost var v := s.Memory();
    item := s.overlay[["a"]].item;
    var first := s.Delete(["a"], Lists([]), Ok(()));
    assert first == Ok(TrashObject(item));
    ghost var v1 := s.Memory();
    DeletedKnows(v, v1, item);
    var r;
    ghost var seen, folderId, target;
    r, seen, folderId, target := s.Upload(["a"], [], true, Lists([]), Accepted("8", true, None, None));
    TombstoneTarget(v1, seen);
    assert s.provider.Keys == {"7", "8"};
  }

  /** Then `/a` is deleted again. When the first task ends, it marks the tombstone of object 8, which nobody trashed. */
  method SecondDeleteIsMisled() returns (s: O2CloudFileStore)
    ensures s.Valid() && s.provider.Keys == {"8"} && s.trashed == {"7"} && !MarksTrue(s.overlay, s.trashed)
  {
    hide O2CloudFileStore.Valid, LookupEffects, Faithful, WeakETag, MetadataCache.Encode, Resolve, ListedAt,
         TombstonesAfter, PromisesAfter, O2CloudFileStore.HiddenUntil, ToMetadata, LearnsFrom, HidesAfter, OnlySlotChanged;
    var item;
    s, item := DeletedAndUploadedAgain();
    var second := s.Delete(["a"], Lists([]), Ok(()));
    s.TrashRemote(["a"], item, Trashed);
    assert ["a"] in s.overlay && s.overlay[["a"]].remoteDeleted && s.overlay[["a"]].remoteId == Some("8");
  }

  lemma DeletedKnows(v: View, v': View, item: Item)
    requires KnowsAtMost(v, {["a"]}, {}) && LearnsFrom(v, v', Lists([])) && OnlySlotChanged(v.overlay, v'.overlay, v.now, ["a"])
    requires HidesAfter(v.hidden, v'.hidden, v.now, TrashObject(item))
    ensures KnowsAtMost(v', {["a"]}, {item.id})
  {
    hide ListedAt;
    forall q | q in v'.pathToItem && q !in {["a"]} ensures q == [] && v'.pathToItem[q] == ROOT {
      NothingListed(v, q, v'.pathToItem[q]);
    }
  }

  lemma TombstoneTarget(v: View, seen: View)
    requires KnowsAtMost(v, {["a"]}, {"7"}) && LiveTombstone(v.overlay, v.now, ["a"])
    requires LookupEffects(v, seen, Lists([]), Parent(["a"]))
    ensures UploadTarget(v, seen, Lists([]), ["a"], true) == Ok((ROOT.id, None))
  {
    assert Parent(["a"]) == [];
    RootResolves(v, [], {["a"]}, {"7"});
    assert Live(seen.overlay, seen.now, ["a"]) && seen.overlay[["a"]] == v.overlay[["a"]];
  }

  // ------------------------------------------------------------------ a moved object nobody sees

  const BOTH: seq<Item> := [FileItem("1", "a", 1), FileItem("2", "b", 1)]

  /** The provider holds `/a` and `/b`, `/b` is deleted, and `/a` is moved there. The move succeeds, and `/b` is still
      not there. */
  method MovedObjectStaysHidden() returns (s: O2CloudFileStore, moved: Result<Metadata>, looked: Result<Option<Metadata>>)
    ensures s.Valid() && moved.Ok? && moved.value.path == ["b"] && looked == Ok(None)
  {
    hide O2CloudFileStore.Valid, LookupEffects, Faithful, WeakETag, MetadataCache.Encode, Resolve, ListedAt, TombstonesAfter,
         PromisesAfter, O2CloudFileStore.HiddenUntil, MoveAnswered, RowsAfterLook, LearnsFrom, HidesAfter;
    s := Started(map["1" := RemoteFile("0", "a", [1]), "2" := RemoteFile("0", "b", [1])]);
    ghost var v := s.Memory();
    SecondListed(v, BOTH[0], BOTH[1]);
    var deleted := s.Delete(["b"], Lists(BOTH), Ok(()));
    assert deleted == Ok(TrashObject(BOTH[1]));
    ghost var v1, rows := s.Memory(), s.cache.rows;
    var scheduled;
    ghost var folderId, seen, found, clear;
    moved, scheduled, folderId, seen, found, clear := s.Move(["a"], ["b"], false, Lists(BOTH), Ok(()), Ok(()));
    assert Parent(["b"]) == [];
    StillKnowsBoth(v, v1);
    RootThere(v1);
    MovedBehind(v, v1, seen, found, clear, s.Memory(), rows, folderId, Ok(()), Ok(()), moved, scheduled, s.tombstoneTtl);
    looked := s.GetMetadata(["b"], Lists(BOTH));
  }

  /** The second of two listed items is found under its name. */
  lemma SecondListed(v: View, first: Item, second: Item)
    requires KnowsAtMost(v, {}, {}) && v.overlay == map[]
    ensures Resolve(v, Lists([first, second]), [second.name]) == Ok(Some(second))
  {
    hide Resolve, Lower;
    ListedInRoot(v, [first, second], {}, {}, [second.name]);
    LastOneFound(v, [first], second);
    assert [first, second] == [first] + [second];
  }

  lemma LastOneFound(v: View, items: seq<Item>, item: Item)
    requires !Hidden(v.hidden, v.now, item.id) && !Live(v.overlay, v.now, Join([], item.name))
    ensures LastMatch(v, [], item.name, items + [item]) == Some(item)
  {
    hide Lower;
  }

  /** What memory has of these paths is what is listed, and no slot is in front of the root. */
  ghost predicate KnowsBoth(v: View) {
    && [] !in v.overlay && ([] in v.pathToItem ==> v.pathToItem[[]] == ROOT)
    && forall k :: 0 <= k < 2 && [BOTH[k].name] in v.pathToItem ==> v.pathToItem[[BOTH[k].name]] == BOTH[k]
  }

  lemma RootThere(v: View)
    requires KnowsBoth(v)
    ensures Resolve(v, Lists(BOTH), []) == Ok(Some(ROOT))
  {
  }

  lemma StillKnowsBoth(v: View, v1: View)
    requires KnowsBoth(v) && LearnsFrom(v, v1, Lists(BOTH)) && [] !in v1.overlay
    ensures KnowsBoth(v1)
  {
    hide Sourced;
    if [] in v1.pathToItem {
      RootSourced(v, v1.pathToItem[[]]);
    }
    forall k | 0 <= k < 2 && [BOTH[k].name] in v1.pathToItem ensures v1.pathToItem[[BOTH[k].name]] == BOTH[k] {
      OneSourced(v, k, v1.pathToItem[[BOTH[k].name]]);
    }
  }

  lemma RootSourced(v: View, item: Item)
    requires KnowsBoth(v) && Sourced(v, Lists(BOTH), [], item)
    ensures item == ROOT
  {
  }

  lemma OneSourced(v: View, k: nat, item: Item)
    requires KnowsBoth(v) && k < 2 && Sourced(v, Lists(BOTH), [BOTH[k].name], item)
    ensures item == BOTH[k]
  {
    hide Resolve;
    RootThere(v);
    assert Parent([BOTH[k].name]) == [] && Base([BOTH[k].name]) == BOTH[k].name;
  }

  /** Either item is found under its name. */
  lemma BothResolve(v: View, k: nat)
    requires k < 2 && KnowsBoth(v) && BOTH[k].id !in v.hidden && !Live(v.overlay, v.now, [BOTH[k].name])
    ensures Resolve(v, Lists(BOTH), [BOTH[k].name]) == Ok(Some(BOTH[k]))
  {
    var p := [BOTH[k].name];
    RootThere(v);
    assert Parent(p) == [] && Base(p) == BOTH[k].name && Join([], BOTH[k].name) == p;
    if p !in v.pathToItem {
      if k == 1 {
        LastOneFound(v, [BOTH[0]], BOTH[1]);
        assert BOTH == [BOTH[0]] + [BOTH[1]];
      } else {
        assert Lower("b")[0] != Lower("a")[0];
        assert BOTH[..1] == [BOTH[0]];
        OnlyItemFound(v, "a", BOTH[0]);
      }
    }
  }

  /** `/a` is moved to `/b` behind the tombstone of a delete before it. */
  lemma MovedBehind(v: View, v1: View, seen: View, found: View, clear: View, v': View, rows: map<Path, MetadataCache.Row>,
                    folderId: string, trash: Result<()>, renamed: Result<()>, r: Result<Metadata>, scheduled: Scheduled, ttl: nat)
    requires KnowsAtMost(v, {}, {}) && LearnsFrom(v, v1, Lists(BOTH)) && v.overlay == map[] && renamed.Ok?
    requires OnlySlotChanged(v.overlay, v1.overlay, v.now, ["b"]) && LiveTombstone(v1.overlay, v1.now, ["b"]) && v'.now == v1.now
    requires HidesAfter(v.hidden, v1.hidden, v.now, TrashObject(BOTH[1]))
    requires LookupEffects(v1, seen, Lists(BOTH), []) && LookupEffects(seen, found, Lists(BOTH), ["b"])
    requires MoveAnswered(v1, seen, found, clear, v', rows, Lists(BOTH), ["a"], ["b"], folderId, false, trash, renamed, r, scheduled, ttl)
    ensures r.Ok? && r.value.path == ["b"]
  {
    hide ListedAt, Resolve, ToMetadata, LearnsFrom, Remembers, ClearedTo;
    StillKnowsBoth(v, v1);
    StillKnowsBoth(v1, seen);
    StillKnowsBoth(seen, found);
    assert Live(seen.overlay, seen.now, ["b"]) && seen.overlay[["b"]] == v1.overlay[["b"]];
    BothResolve(found, 0);
    MetadataAtPath(BOTH[0].(name := "b", parentId := Some(folderId)), ["b"]);
  }

  /** The provider holds `/a` and `/b`, and memory is empty. `/a` is moved to `/b` and overwrites it. The move succeeds, and
      nothing is at `/b` until the tombstone of the overwritten file ends. */
  method OverwritingMoveHides() returns (s: O2CloudFileStore, moved: Result<Metadata>, looked: Result<Option<Metadata>>)
    ensures s.Valid() && moved.Ok? && moved.value.path == ["b"] && looked == Ok(None)
  {
    hide O2CloudFileStore.Valid, LookupEffects, Faithful, WeakETag, MetadataCache.Encode, Resolve, ListedAt, TombstonesAfter,
         PromisesAfter, MoveAnswered, RowsAfterLook, LearnsFrom, HidesAfter, ClearAnswer, ProviderMoved, MetadataAt;
    s := Started(map["1" := RemoteFile("0", "a", [1]), "2" := RemoteFile("0", "b", [1])]);
    ghost var v := s.Memory();
    RootThere(v);
    assert Parent(["b"]) == [];
    var scheduled;
    ghost var folderId, seen, found, clear;
    moved, scheduled, folderId, seen, found, clear := s.Move(["a"], ["b"], true, Lists(BOTH), Ok(()), Ok(()));
    MovedOver(v, seen, found, clear, s.Memory(), folderId, Ok(()), Ok(()), moved, scheduled, s.tombstoneTtl);
    looked := s.GetMetadata(["b"], Lists(BOTH));
  }

  lemma MovedOver(v: View, seen: View, found: View, clear: View, v': View, folderId: string, trash: Result<()>,
                  renamed: Result<()>, r: Result<Metadata>, scheduled: Scheduled, ttl: nat)
    requires KnowsAtMost(v, {}, {}) && v.overlay == map[] && renamed.Ok?
    requires LookupEffects(v, seen, Lists(BOTH), []) && LookupEffects(seen, found, Lists(BOTH), ["b"])
    requires MoveAnswered(v, seen, found, clear, v', map[], Lists(BOTH), ["a"], ["b"], folderId, true, trash, renamed, r, scheduled, ttl)
    ensures scheduled == TrashObject(BOTH[1]) && r.Ok? && r.value.path == ["b"]
  {
    hide ListedAt, Resolve, ToMetadata, LearnsFrom, Remembers;
    StillKnowsBoth(v, seen);
    StillKnowsBoth(seen, found);
    BothResolve(seen, 1);
    BothResolve(found, 1);
    StillKnowsBoth(found, clear);
    BothResolve(clear, 0);
    MetadataAtPath(BOTH[0].(name := "b", parentId := Some(folderId)), ["b"]);
  }

  // ------------------------------------------------------------------ a lost answer

  /** The answer to the first upload of `/a` is lost, and the listing lags. The next upload makes a second object. */
  method LostUploadLeavesTwo() returns (s: O2CloudFileStore)
    ensures s.Valid() && s.provider.Keys == {"1", "2"} && LiveUpload(s.overlay, s.now, ["a"])
  {
    hide O2CloudFileStore.Valid, LookupEffects, Faithful, WeakETag, MetadataCache.Encode, Resolve, TargetOf, ListedAt, UploadTarget,
         Spares, ToMetadata, LearnsElsewhere, KnowsAtMost, Tied, Known, MetadataCache.Without, CachePut;
    s := Started(map[]);
    ghost var v := s.Memory();
    var r;
    ghost var seen, folderId, target;
    r, seen, folderId, target := s.Upload(["a"], [1], true, Lists([]), Lost("1", ProviderFailure));
    ghost var v1 := s.Memory();
    NewFileTarget(v, seen, {}, {}, ["a"]);
    LookupKnows(seen, v1, [], ["a"], {}, {});
    r, seen, folderId, target := s.Upload(["a"], [1], true, Lists([]), Accepted("2", true, None, None));
    NewFileTarget(v1, seen, {}, {}, ["a"]);
  }
}
