/**
 How `list` lays the overlay over a remote listing (src/o2gateway/o2/store.py:61-98), as a function of
 the listing, and what the result promises whatever the provider lists.
 */
module ListMerge {
  import opened Wrappers
  import opened CloudTypes
  import opened Lookup

  /** The folder being listed, the live overlay entries of its children, and what is hidden. */
  datatype Before = Before(folder: Path, children: Overlay, hidden: map<string, int>, now: int)

  /** The pass over the listing: what was emitted, which children are still covered by the overlay, and
      which item each emitted remote path was remembered with. */
  datatype Merge = Merge(output: seq<Metadata>, children: Overlay, found: map<Path, Item>)

  /** The listing already shows this upload. */
  predicate Settles(item: Item, e: Entry) {
    && e.state == Uploaded
    && e.remoteId == Some(item.id)
    && e.metadata.size == Some(item.size)
  }

  /** `item` gets past the overlay, given the children it still covers. */
  predicate Passes(b: Before, covered: Overlay, item: Item) {
    var p := Join(b.folder, item.name);
    !Hidden(b.hidden, b.now, item.id) && (p !in covered || Settles(item, covered[p]))
  }

  function MergeOne(b: Before, m: Merge, item: Item): Merge {
    var p := Join(b.folder, item.name);
    if Passes(b, m.children, item) then
      Merge(m.output + [ToMetadata(item, p)], m.children - {p}, m.found[p := item])
    else
      m
  }

  function MergeListing(b: Before, items: seq<Item>): Merge
    decreases |items|
  {
    if items == [] then
      Merge([], b.children, map[])
    else
      MergeOne(b, MergeListing(b, items[..|items| - 1]), items[|items| - 1])
  }

  /** Forgetting what is no longer hidden does not change the pass. */
  lemma {:induction false} SameMerge(b: Before, b': Before, items: seq<Item>)
    requires b' == b.(hidden := b'.hidden)
    requires forall id :: Hidden(b'.hidden, b.now, id) <==> Hidden(b.hidden, b.now, id)
    ensures MergeListing(b', items) == MergeListing(b, items)
    decreases |items|
  {
    if items != [] {
      SameMerge(b, b', items[..|items| - 1]);
    }
  }

  /** The uploads that the listing did not settle. */
  function Waiting(m: Merge): set<Path> {
    set p | p in m.children && m.children[p].state == Uploaded
  }

  /** `order` enumerates `paths`. */
  ghost predicate Enumerates(order: seq<Path>, paths: set<Path>) {
    && (forall p :: p in order <==> p in paths)
    && (forall i, j :: 0 <= i < j < |order| ==> order[i] != order[j])
  }

  /** The overlay's own part of the result. */
  function OverlayPart(m: Merge, order: seq<Path>): (r: seq<Metadata>)
    requires forall p :: p in order ==> p in m.children
    ensures |r| == |order| && forall i :: 0 <= i < |r| ==> r[i] == m.children[order[i]].metadata
    decreases |order|
  {
    if order == [] then
      []
    else
      OverlayPart(m, order[..|order| - 1]) + [m.children[order[|order| - 1]].metadata]
  }

  /** The items the waiting uploads are remembered with. */
  function WaitingItems(m: Merge): map<Path, Item> {
    map p | p in Waiting(m) :: m.children[p].item
  }

  // ------------------------------------------------------------------ what the caller may rely on

  /** No two listed objects that are not hidden have the same name. */
  ghost predicate NamesDistinct(b: Before, items: seq<Item>) {
    forall i, j :: 0 <= i < j < |items| && !Hidden(b.hidden, b.now, items[i].id) && !Hidden(b.hidden, b.now, items[j].id) ==>
      items[i].name != items[j].name
  }

  /** The overlay entries carry their own path. */
  ghost predicate Keyed(b: Before) {
    forall p :: p in b.children ==> Parent(p) == b.folder && b.children[p].metadata.path == p
  }

  /** The listed object `item` settles the upload at its path. */
  ghost predicate SettledBy(b: Before, items: seq<Item>, p: Path, i: nat) {
    && i < |items| && p in b.children
    && Join(b.folder, items[i].name) == p
    && !Hidden(b.hidden, b.now, items[i].id)
    && Settles(items[i], b.children[p])
  }

  /** What holds of a pass over any listing. */
  ghost predicate PassOk(b: Before, items: seq<Item>, m: Merge) {
    && (forall p :: p in m.children ==> p in b.children && m.children[p] == b.children[p])
    && (forall p :: p in b.children && p !in m.children ==> p in m.found && exists i :: SettledBy(b, items, p, i))
    && (forall p :: p in m.found ==> FoundOk(b, items, m, p))
    && (forall k :: 0 <= k < |m.output| ==> m.output[k].path in m.found)
  }

  /** What the pass remembered at `p` is a visible listed object, in front of no tombstone. */
  ghost predicate FoundOk(b: Before, items: seq<Item>, m: Merge, p: Path)
    requires p in m.found
  {
    && p !in m.children && m.found[p] in items && p == Join(b.folder, m.found[p].name)
    && !Hidden(b.hidden, b.now, m.found[p].id)
    && (p in b.children ==> b.children[p].state == Uploaded)
  }

  lemma {:induction false} PassesKeep(b: Before, items: seq<Item>)
    ensures PassOk(b, items, MergeListing(b, items))
    decreases |items|
  {
    if items != [] {
      var last := |items| - 1;
      PassesKeep(b, items[..last]);
      PassesOneMore(b, items, MergeListing(b, items[..last]));
    }
  }

  lemma PassesOneMore(b: Before, items: seq<Item>, m: Merge)
    requires items != [] && PassOk(b, items[..|items| - 1], m)
    ensures PassOk(b, items, MergeOne(b, m, items[|items| - 1]))
  {
    hide Settles, FoundOk, SettledBy, ToMetadata;
    var last := |items| - 1;
    var m' := MergeOne(b, m, items[last]);
    SettledOneMore(b, items, m);
    forall p | p in m'.found ensures FoundOk(b, items, m', p) {
      FoundOneMore(b, items, m, p);
    }
    if Passes(b, m.children, items[last]) {
      MetadataAtPath(items[last], Join(b.folder, items[last].name));
    }
  }

  lemma MetadataAtPath(item: Item, p: Path)
    ensures ToMetadata(item, p).path == p && ToMetadata(item, p).id == item.id
  {
  }

  lemma FoundOneMore(b: Before, items: seq<Item>, m: Merge, p: Path)
    requires items != [] && PassOk(b, items[..|items| - 1], m)
    requires p in MergeOne(b, m, items[|items| - 1]).found
    ensures FoundOk(b, items, MergeOne(b, m, items[|items| - 1]), p)
  {
    hide ToMetadata;
    var last := |items| - 1;
    if p in m.found {
      assert FoundOk(b, items[..last], m, p);
    }
  }

  lemma SettledOneMore(b: Before, items: seq<Item>, m: Merge)
    requires items != [] && PassOk(b, items[..|items| - 1], m)
    ensures forall p :: p in b.children && p !in MergeOne(b, m, items[|items| - 1]).children ==> exists i :: SettledBy(b, items, p, i)
  {
    var last := |items| - 1;
    forall p | p in b.children && p !in MergeOne(b, m, items[last]).children ensures exists i :: SettledBy(b, items, p, i) {
      if p !in m.children {
        var i :| SettledBy(b, items[..last], p, i);
        assert SettledBy(b, items, p, i);
      } else {
        assert SettledBy(b, items, p, last);
      }
    }
  }

  /** `meta` is the metadata of a listed object that is not hidden. */
  ghost predicate FromListing(b: Before, items: seq<Item>, meta: Metadata) {
    exists i :: 0 <= i < |items| && !Hidden(b.hidden, b.now, items[i].id)
                && meta == ToMetadata(items[i], Join(b.folder, items[i].name))
  }

  /** Whatever is listed, in whatever state, no hidden object is emitted. */
  lemma {:induction false} HiddenNeverEmitted(b: Before, items: seq<Item>)
    ensures forall k :: 0 <= k < |MergeListing(b, items).output| ==>
      var meta := MergeListing(b, items).output[k];
      FromListing(b, items, meta) && !Hidden(b.hidden, b.now, meta.id)
    decreases |items|
  {
    if items != [] {
      var last := |items| - 1;
      HiddenNeverEmitted(b, items[..last]);
      var m, m' := MergeListing(b, items[..last]), MergeListing(b, items);
      forall k | 0 <= k < |m'.output| ensures FromListing(b, items, m'.output[k]) && !Hidden(b.hidden, b.now, m'.output[k].id) {
        if k < |m.output| {
          assert m'.output[k] == m.output[k];
          var i :| 0 <= i < last && !Hidden(b.hidden, b.now, items[..last][i].id)
                   && m.output[k] == ToMetadata(items[..last][i], Join(b.folder, items[..last][i].name));
          assert items[i] == items[..last][i];
        } else {
          assert m'.output[k] == ToMetadata(items[last], Join(b.folder, items[last].name));
        }
      }
    }
  }

  /** With distinct names the pass is a plain filter: each object is judged against the overlay as it was. */
  function Filtered(b: Before, items: seq<Item>): seq<Metadata>
    decreases |items|
  {
    if items == [] then
      []
    else
      var last := items[|items| - 1];
      var rest := Filtered(b, items[..|items| - 1]);
      if Passes(b, b.children, last) then rest + [ToMetadata(last, Join(b.folder, last.name))] else rest
  }

  lemma {:induction false} PassIsFilter(b: Before, items: seq<Item>)
    requires NamesDistinct(b, items)
    ensures MergeListing(b, items).output == Filtered(b, items)
    decreases |items|
  {
    hide PassOk;
    if items != [] {
      var last := |items| - 1;
      PassIsFilter(b, items[..last]);
      PassesKeep(b, items[..last]);
      var m := MergeListing(b, items[..last]);
      JudgedAsAtFirst(b, items, m);
    }
  }

  /** No earlier object can have settled the child an object not hidden is listed at. */
  lemma JudgedAsAtFirst(b: Before, items: seq<Item>, m: Merge)
    requires items != [] && NamesDistinct(b, items) && PassOk(b, items[..|items| - 1], m)
    ensures Passes(b, m.children, items[|items| - 1]) == Passes(b, b.children, items[|items| - 1])
  {
  }

  /** `meta` describes a listed object that the overlay, as it was, lets pass. */
  ghost predicate LetPass(b: Before, items: seq<Item>, meta: Metadata) {
    exists i :: 0 <= i < |items| && Passes(b, b.children, items[i]) && meta == ToMetadata(items[i], Join(b.folder, items[i].name))
  }

  /** The filter emits nothing but objects it lets pass. */
  lemma {:induction false} FilterSound(b: Before, items: seq<Item>)
    ensures forall k :: 0 <= k < |Filtered(b, items)| ==> LetPass(b, items, Filtered(b, items)[k])
    decreases |items|
  {
    hide Passes, ToMetadata;
    if items != [] {
      var last := |items| - 1;
      var shorter, f := items[..last], Filtered(b, items);
      FilterSound(b, shorter);
      forall k | 0 <= k < |f| ensures LetPass(b, items, f[k]) {
        if k < |Filtered(b, shorter)| {
          assert f[k] == Filtered(b, shorter)[k];
          var i :| 0 <= i < last && Passes(b, b.children, shorter[i])
                   && f[k] == ToMetadata(shorter[i], Join(b.folder, shorter[i].name));
          assert items[i] == shorter[i];
        } else {
          assert Passes(b, b.children, items[last]);
        }
      }
    }
  }

  /** It misses none of them. */
  lemma {:induction false} FilterComplete(b: Before, items: seq<Item>, i: nat)
    requires i < |items| && Passes(b, b.children, items[i])
    ensures ToMetadata(items[i], Join(b.folder, items[i].name)) in Filtered(b, items)
    decreases |items|
  {
    hide Passes, ToMetadata;
    var last := |items| - 1;
    if i < last {
      assert items[..last][i] == items[i];
      FilterComplete(b, items[..last], i);
    }
  }

  /** With distinct names it emits every path at most once. */
  lemma {:induction false} FilterDistinct(b: Before, items: seq<Item>)
    requires NamesDistinct(b, items)
    ensures PathsDistinct(Filtered(b, items))
    decreases |items|
  {
    if items != [] {
      var f, last := Filtered(b, items[..|items| - 1]), items[|items| - 1];
      FilterDistinct(b, items[..|items| - 1]);
      if Passes(b, b.children, last) {
        NewPath(b, items, f);
        DistinctTogether(f, [ToMetadata(last, Join(b.folder, last.name))]);
      }
    }
  }

  /** The last object's path is none of the earlier ones'. */
  lemma NewPath(b: Before, items: seq<Item>, f: seq<Metadata>)
    requires items != [] && NamesDistinct(b, items) && Passes(b, b.children, items[|items| - 1])
    requires f == Filtered(b, items[..|items| - 1])
    ensures forall j :: 0 <= j < |f| ==> f[j].path != Join(b.folder, items[|items| - 1].name)
  {
    var last := |items| - 1;
    var shorter := items[..last];
    FilterSound(b, shorter);
    forall j | 0 <= j < |f| ensures f[j].path != Join(b.folder, items[last].name) {
      var meta := f[j];
      var i :| 0 <= i < last && Passes(b, b.children, shorter[i]) && meta == ToMetadata(shorter[i], Join(b.folder, shorter[i].name));
      assert items[i] == shorter[i];
      assert Base(meta.path) == items[i].name && Base(Join(b.folder, items[last].name)) == items[last].name;
    }
  }

  // ------------------------------------------------------------------ the result of `list`

  /** Everything `list` returns, when its dictionary yields the children left over in `order`. */
  function ListOutput(b: Before, items: seq<Item>, order: seq<Path>): seq<Metadata>
    requires forall p :: p in order ==> p in MergeListing(b, items).children
  {
    MergeListing(b, items).output + OverlayPart(MergeListing(b, items), order)
  }

  ghost predicate PathsDistinct(output: seq<Metadata>) {
    forall j, k :: 0 <= j < k < |output| ==> output[j].path != output[k].path
  }

  /** `meta` is the overlay's description of the upload at `p`, or that of a listed object that settles it. */
  ghost predicate ShowsUpload(b: Before, items: seq<Item>, p: Path, meta: Metadata) {
    && p in b.children && b.children[p].state == Uploaded && meta.path == p
    && (meta == b.children[p].metadata
        || exists i: nat :: SettledBy(b, items, p, i) && meta == ToMetadata(items[i], p))
  }

  /** `meta` describes a listed object that is not hidden and that the overlay says nothing about. */
  ghost predicate ShowsRemote(b: Before, items: seq<Item>, meta: Metadata) {
    FromListing(b, items, meta) && meta.path !in b.children
  }

  lemma RemotePartSound(b: Before, items: seq<Item>, meta: Metadata)
    requires NamesDistinct(b, items) && meta in MergeListing(b, items).output
    ensures ShowsRemote(b, items, meta) || ShowsUpload(b, items, meta.path, meta)
    ensures meta.path !in MergeListing(b, items).children
  {
    hide ShowsRemote, ShowsUpload, LetPass, Passes, NamesDistinct;
    PassIsFilter(b, items);
    FilterSound(b, items);
    PassesKeep(b, items);
    LetPassShows(b, items, meta);
    assert FoundOk(b, items, MergeListing(b, items), meta.path);
  }

  lemma LetPassShows(b: Before, items: seq<Item>, meta: Metadata)
    requires LetPass(b, items, meta)
    ensures ShowsRemote(b, items, meta) || ShowsUpload(b, items, meta.path, meta)
  {
    var i :| 0 <= i < |items| && Passes(b, b.children, items[i])
             && meta == ToMetadata(items[i], Join(b.folder, items[i].name));
    if meta.path in b.children {
      assert SettledBy(b, items, meta.path, i);
    }
  }

  lemma OverlayPartIn(m: Merge, order: seq<Path>, p: Path)
    requires p in order && forall q :: q in order ==> q in m.children
    ensures m.children[p].metadata in OverlayPart(m, order)
  {
    var i :| 0 <= i < |order| && order[i] == p;
    assert OverlayPart(m, order)[i] == m.children[p].metadata;
  }

  lemma PassedIsShown(b: Before, items: seq<Item>, i: nat)
    requires NamesDistinct(b, items) && i < |items| && Passes(b, b.children, items[i])
    ensures ToMetadata(items[i], Join(b.folder, items[i].name)) in MergeListing(b, items).output
  {
    PassIsFilter(b, items);
    FilterComplete(b, items, i);
  }

  /** Every live upload among the children is in the result. */
  lemma UploadShown(b: Before, items: seq<Item>, order: seq<Path>, p: Path)
    requires NamesDistinct(b, items) && Keyed(b)
    requires Enumerates(order, Waiting(MergeListing(b, items)))
    requires p in b.children && b.children[p].state == Uploaded
    ensures exists meta :: meta in ListOutput(b, items, order) && ShowsUpload(b, items, p, meta)
  {
    hide FromListing, NamesDistinct;
    PassesKeep(b, items);
    var m := MergeListing(b, items);
    if p in m.children {
      OverlayPartIn(m, order, p);
      assert ShowsUpload(b, items, p, b.children[p].metadata);
    } else {
      var i: nat :| SettledBy(b, items, p, i);
      PassedIsShown(b, items, i);
      assert ShowsUpload(b, items, p, ToMetadata(items[i], p));
    }
  }

  /** The overlay's part describes waiting uploads, each at its own path. */
  lemma OverlayPartSound(b: Before, items: seq<Item>, order: seq<Path>, k: nat)
    requires Keyed(b) && Enumerates(order, Waiting(MergeListing(b, items))) && k < |order|
    ensures var meta := OverlayPart(MergeListing(b, items), order)[k];
      && meta.path == order[k] && meta.path in MergeListing(b, items).children
      && ShowsUpload(b, items, meta.path, meta)
  {
    PassesKeep(b, items);
    assert order[k] in order;
  }

  lemma DistinctTogether(a: seq<Metadata>, c: seq<Metadata>)
    requires PathsDistinct(a) && PathsDistinct(c)
    requires forall j, k :: 0 <= j < |a| && 0 <= k < |c| ==> a[j].path != c[k].path
    ensures PathsDistinct(a + c)
  {
  }

  lemma EachPathOnce(b: Before, items: seq<Item>, order: seq<Path>)
    requires NamesDistinct(b, items) && Keyed(b)
    requires Enumerates(order, Waiting(MergeListing(b, items)))
    ensures PathsDistinct(ListOutput(b, items, order))
  {
    hide ShowsUpload, ShowsRemote, NamesDistinct, Keyed;
    var m := MergeListing(b, items);
    var own := OverlayPart(m, order);
    PassIsFilter(b, items);
    FilterDistinct(b, items);
    forall k | 0 <= k < |own| ensures own[k].path == order[k] && order[k] in m.children {
      OverlayPartSound(b, items, order, k);
    }
    forall j | 0 <= j < |m.output| ensures m.output[j].path !in m.children {
      RemotePartSound(b, items, m.output[j]);
    }
    DistinctTogether(m.output, own);
  }

  lemma NothingElseShown(b: Before, items: seq<Item>, order: seq<Path>, meta: Metadata)
    requires NamesDistinct(b, items) && Keyed(b)
    requires Enumerates(order, Waiting(MergeListing(b, items)))
    requires meta in ListOutput(b, items, order)
    ensures ShowsRemote(b, items, meta)
         || ShowsUpload(b, items, meta.path, meta)
  {
    var m := MergeListing(b, items);
    if meta in m.output {
      RemotePartSound(b, items, meta);
    } else {
      var k :| 0 <= k < |order| && OverlayPart(m, order)[k] == meta;
      OverlayPartSound(b, items, order, k);
    }
  }

  lemma RemoteShown(b: Before, items: seq<Item>, meta: Metadata)
    requires NamesDistinct(b, items) && ShowsRemote(b, items, meta)
    ensures meta in MergeListing(b, items).output
  {
    var i :| 0 <= i < |items| && !Hidden(b.hidden, b.now, items[i].id)
             && meta == ToMetadata(items[i], Join(b.folder, items[i].name));
    PassedIsShown(b, items, i);
  }

  /** Main result: whatever the provider lists, however stale or partial, as long as two objects that are
      not hidden never share a name, `list` shows each live upload once, no tombstoned path, and apart
      from those exactly the remote objects that are not hidden. */
  lemma ListIsOverlayOverRemote(b: Before, items: seq<Item>, order: seq<Path>)
    requires NamesDistinct(b, items) && Keyed(b)
    requires Enumerates(order, Waiting(MergeListing(b, items)))
    ensures PathsDistinct(ListOutput(b, items, order))
    ensures forall p :: p in b.children && b.children[p].state == Uploaded ==>
      exists meta :: meta in ListOutput(b, items, order) && ShowsUpload(b, items, p, meta)
    ensures forall meta :: meta in ListOutput(b, items, order) ==>
      ShowsRemote(b, items, meta)
      || ShowsUpload(b, items, meta.path, meta)
    ensures forall meta :: ShowsRemote(b, items, meta) ==> meta in ListOutput(b, items, order)
  {
    hide ShowsUpload, ShowsRemote, PathsDistinct, NamesDistinct, Keyed;
    EachPathOnce(b, items, order);
    forall p | p in b.children && b.children[p].state == Uploaded
      ensures exists meta :: meta in ListOutput(b, items, order) && ShowsUpload(b, items, p, meta)
    {
      UploadShown(b, items, order, p);
    }
    forall meta | meta in ListOutput(b, items, order)
      ensures ShowsRemote(b, items, meta)
           || ShowsUpload(b, items, meta.path, meta)
    {
      NothingElseShown(b, items, order, meta);
    }
    forall meta | ShowsRemote(b, items, meta) ensures meta in ListOutput(b, items, order) {
      RemoteShown(b, items, meta);
    }
  }

  // ------------------------------------------------------------------ the same in ids, sizes and times

  /** The listed object `i` stands at `p`, and no delete hides it any more. */
  ghost predicate VisibleAt(b: Before, items: seq<Item>, i: int, p: Path) {
    && 0 <= i < |items| && Join(b.folder, items[i].name) == p
    && (items[i].id in b.hidden ==> b.hidden[items[i].id] <= b.now)
  }

  /** The listed object is the one the upload went to, and as long as the upload. */
  predicate Confirms(item: Item, e: Entry) {
    e.state == Uploaded && e.remoteId.Some? && e.remoteId.value == item.id && e.metadata.size == Some(item.size)
  }

  ghost predicate ConfirmedAt(b: Before, items: seq<Item>, p: Path) {
    p in b.children && exists i :: VisibleAt(b, items, i, p) && Confirms(items[i], b.children[p])
  }

  /** Whatever is listed, only an upload leaves the overlay, and only when its own object is listed at its path with
      the size of the upload; with distinct names it does then. */
  lemma RetiredWhenConfirmed(b: Before, items: seq<Item>, p: Path)
    requires p in b.children
    ensures p !in MergeListing(b, items).children ==> ConfirmedAt(b, items, p)
    ensures NamesDistinct(b, items) && ConfirmedAt(b, items, p) ==> p !in MergeListing(b, items).children
  {
    PassesKeep(b, items);
    if p !in MergeListing(b, items).children {
      var i: nat :| SettledBy(b, items, p, i);
      assert VisibleAt(b, items, i, p) && Confirms(items[i], b.children[p]);
    } else if NamesDistinct(b, items) && ConfirmedAt(b, items, p) {
      var i :| VisibleAt(b, items, i, p) && Confirms(items[i], b.children[p]);
      PassedIsShown(b, items, i);
      EmittedIsFound(b, items, ToMetadata(items[i], p));
    }
  }

  lemma EmittedIsFound(b: Before, items: seq<Item>, meta: Metadata)
    requires meta in MergeListing(b, items).output
    ensures meta.path !in MergeListing(b, items).children
  {
    PassesKeep(b, items);
    assert FoundOk(b, items, MergeListing(b, items), meta.path);
  }

  /** `meta` describes a visible listed object at its path, which is free or whose upload the object confirms. */
  ghost predicate ShownFromListing(b: Before, items: seq<Item>, meta: Metadata) {
    exists i :: VisibleAt(b, items, i, meta.path) && DescribesItem(meta, items[i], meta.path)
                && (meta.path in b.children ==> Confirms(items[i], b.children[meta.path]))
  }

  /** `meta` describes a live upload that no listed object confirms. */
  ghost predicate ShownFromOverlay(b: Before, items: seq<Item>, meta: Metadata) {
    && meta.path in b.children && b.children[meta.path].state == Uploaded && meta == b.children[meta.path].metadata
    && !ConfirmedAt(b, items, meta.path)
  }

  /** Main result on lists, in ids and sizes: for every listing with distinct visible names, the result shows exactly
      the listed objects at free paths or confirming the upload there, and the uploads that none confirms. */
  lemma ListInIdsAndSizes(b: Before, items: seq<Item>, order: seq<Path>)
    requires NamesDistinct(b, items) && Keyed(b) && Enumerates(order, Waiting(MergeListing(b, items)))
    ensures forall meta :: meta in ListOutput(b, items, order) ==> ShownFromListing(b, items, meta) || ShownFromOverlay(b, items, meta)
    ensures forall i, p :: VisibleAt(b, items, i, p) && (p in b.children ==> Confirms(items[i], b.children[p])) ==>
      exists meta :: meta in ListOutput(b, items, order) && meta.path == p && DescribesItem(meta, items[i], p)
    ensures forall p :: p in b.children && b.children[p].state == Uploaded && !ConfirmedAt(b, items, p) ==>
      b.children[p].metadata in ListOutput(b, items, order)
  {
    hide NamesDistinct, Keyed, ListOutput, Confirms, ConfirmedAt, ShownFromListing, ShownFromOverlay, DescribesItem;
    forall meta | meta in ListOutput(b, items, order) ensures ShownFromListing(b, items, meta) || ShownFromOverlay(b, items, meta) {
      ShownIsDue(b, items, order, meta);
    }
    forall i, p | VisibleAt(b, items, i, p) && (p in b.children ==> Confirms(items[i], b.children[p]))
      ensures exists meta :: meta in ListOutput(b, items, order) && meta.path == p && DescribesItem(meta, items[i], p)
    {
      ListedIsShown(b, items, order, i, p);
    }
    forall p | p in b.children && b.children[p].state == Uploaded && !ConfirmedAt(b, items, p)
      ensures b.children[p].metadata in ListOutput(b, items, order)
    {
      WaitingIsShown(b, items, order, p);
    }
  }

  lemma ListedIsShown(b: Before, items: seq<Item>, order: seq<Path>, i: int, p: Path)
    requires NamesDistinct(b, items) && Enumerates(order, Waiting(MergeListing(b, items)))
    requires VisibleAt(b, items, i, p) && (p in b.children ==> Confirms(items[i], b.children[p]))
    ensures exists meta :: meta in ListOutput(b, items, order) && meta.path == p && DescribesItem(meta, items[i], p)
  {
    hide NamesDistinct, DescribesItem;
    PassedIsShown(b, items, i);
    MetadataDescribes(items[i], p);
    MetadataAtPath(items[i], p);
    assert ToMetadata(items[i], p) in ListOutput(b, items, order);
  }

  lemma WaitingIsShown(b: Before, items: seq<Item>, order: seq<Path>, p: Path)
    requires Enumerates(order, Waiting(MergeListing(b, items)))
    requires p in b.children && b.children[p].state == Uploaded && !ConfirmedAt(b, items, p)
    ensures b.children[p].metadata in ListOutput(b, items, order)
  {
    hide ConfirmedAt, ToMetadata;
    RetiredWhenConfirmed(b, items, p);
    PassesKeep(b, items);
    OverlayPartIn(MergeListing(b, items), order, p);
  }

  lemma ShownIsDue(b: Before, items: seq<Item>, order: seq<Path>, meta: Metadata)
    requires NamesDistinct(b, items) && Keyed(b) && Enumerates(order, Waiting(MergeListing(b, items)))
    requires meta in ListOutput(b, items, order)
    ensures ShownFromListing(b, items, meta) || ShownFromOverlay(b, items, meta)
  {
    var m := MergeListing(b, items);
    if meta in m.output {
      hide *;
      EmittedIsDue(b, items, meta);
    } else {
      var k :| 0 <= k < |order| && OverlayPart(m, order)[k] == meta;
      WaitingIsDue(b, items, order, k);
    }
  }

  lemma EmittedIsDue(b: Before, items: seq<Item>, meta: Metadata)
    requires NamesDistinct(b, items) && meta in MergeListing(b, items).output
    ensures ShownFromListing(b, items, meta)
  {
    hide NamesDistinct, DescribesItem;
    PassIsFilter(b, items);
    FilterSound(b, items);
    var i :| 0 <= i < |items| && Passes(b, b.children, items[i]) && meta == ToMetadata(items[i], Join(b.folder, items[i].name));
    MetadataDescribes(items[i], Join(b.folder, items[i].name));
    MetadataAtPath(items[i], Join(b.folder, items[i].name));
    assert VisibleAt(b, items, i, meta.path);
  }

  lemma WaitingIsDue(b: Before, items: seq<Item>, order: seq<Path>, k: nat)
    requires NamesDistinct(b, items) && Keyed(b) && Enumerates(order, Waiting(MergeListing(b, items))) && k < |order|
    ensures ShownFromOverlay(b, items, OverlayPart(MergeListing(b, items), order)[k])
  {
    hide NamesDistinct, ConfirmedAt;
    PassesKeep(b, items);
    assert order[k] in order;
    RetiredWhenConfirmed(b, items, order[k]);
  }
}
