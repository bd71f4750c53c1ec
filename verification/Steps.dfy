/**
 What the steps of the store do to its maps, as functions and predicates on plain values, with the lemmas
 that carry them from step to step.
 */
module Steps {
  import opened Wrappers
  import opened CloudTypes
  import opened Spool
  import opened Eviction
  import opened Lookup
  import opened ListMerge
  import opened Contents
  import opened ByteRanges
  import MetadataCache

  /** A slot describes its own path; a tombstone holds no copy; a known id is the item's id. */
  ghost predicate SlotOk(p: Path, e: Entry) {
    && e.metadata == ToMetadata(e.item, p)
    && (e.state == PendingDelete ==> e.localPath.None?)
    && (e.state == Uploaded ==> !e.item.isFolder && (e.remoteId.Some? ==> e.item.id == e.remoteId.value))
  }

  ghost predicate SlotsOk(o: Overlay) {
    forall p :: p in o ==> SlotOk(p, o[p])
  }

  function Expired(o: Overlay, now: int): set<Path> {
    set p | p in o && o[p].expiresAt <= now
  }

  /** One unlink of `copy` was tried; when it failed, the copy is stranded at its accounted size. */
  ghost predicate Discarded(copy: Copy, log: seq<Unlink>, log': seq<Unlink>, d: Disk, d': Disk, st: Stranded, st': Stranded)
  {
    || (log' == log + [Unlink(copy.name, true)] && d' == d - {copy.name} && st' == st)
    || (log' == log + [Unlink(copy.name, false)] && d' == d && st' == st[copy.name := copy.size])
  }

  /** A copy of `source` was written to the new file `target` in pieces; after the pieces, so much of it was there. */
  ghost predicate WrittenAt(cuts: seq<nat>, source: Bytes, target: CopyName, d: Disk, d': Disk) {
    && (forall i :: 0 <= i < |cuts| ==> cuts[i] <= |source|)
    && (forall i, j :: 0 <= i < j < |cuts| ==> cuts[i] < cuts[j])
    && (cuts != [] ==> cuts[0] == 0)
    && d' == if cuts == [] then d else d[target := source[..cuts[|cuts| - 1]]]
  }

  /** The stranded copies outside `rest` were tried again; those in `gone` are gone. */
  ghost predicate Retried(st: Stranded, st': Stranded, d: Disk, d': Disk, log: seq<Unlink>, log': seq<Unlink>,
                          gone: set<CopyName>, rest: set<CopyName>)
  {
    && gone !! rest && st' == st - gone && d' == d - gone && log <= log'
    && forall n :: n in st && n !in rest ==> Unlink(n, n in gone) in log'[|log|..]
  }

  lemma NothingRetried(st: Stranded, d: Disk, log: seq<Unlink>)
    ensures Retried(st, st, d, d, log, log, {}, st.Keys)
  {
  }

  lemma RetriedOneMore(st: Stranded, st1: Stranded, d: Disk, d1: Disk, log: seq<Unlink>, log1: seq<Unlink>, gone: set<CopyName>,
                       rest: set<CopyName>, n: CopyName)
    requires Retried(st, st1, d, d1, log, log1, gone, rest) && n in rest
    ensures Retried(st, st1 - {n}, d, d1 - {n}, log, log1 + [Unlink(n, true)], gone + {n}, rest - {n})
    ensures Retried(st, st1, d, d1, log, log1 + [Unlink(n, false)], gone, rest - {n})
  {
    assert forall last :: (log1 + [Unlink(n, last)])[|log|..] == log1[|log|..] + [Unlink(n, last)];
  }

  lemma WhatRetriedMeans(st: Stranded, st': Stranded, d: Disk, d': Disk, log: seq<Unlink>, log': seq<Unlink>, gone: set<CopyName>)
    requires Retried(st, st', d, d', log, log', gone, {})
    ensures st' == st - gone && d' == d - gone && log <= log'
    ensures forall n :: n in st ==> Unlink(n, n in gone) in log'[|log|..]
  {
  }

  lemma NothingCopied(o: Overlay, d: Disk, u: nat)
    ensures OnlyCopiesDropped(o, o) && OldFilesKept(d, d, u)
  {
  }

  lemma ShrunkIsOld(d: Disk, d': Disk, u: nat)
    requires Shrinks(d, d')
    ensures OldFilesKept(d, d', u)
  {
  }

  /** A copy written under a new name leaves the older files alone. */
  lemma WrittenIsNew(d: Disk, d1: Disk, d2: Disk, cuts: seq<nat>, source: Bytes, target: CopyName)
    requires Shrinks(d, d1) && target !in d1 && WrittenAt(cuts, source, target, d1, d2)
    ensures OldFilesKept(d, d2, target) && OldFilesKept(d, d2 - {target}, target)
    ensures target in d2 ==> |d2[target]| <= |source|
  {
  }

  /** The overlay entry of an accepted upload of `size` bytes. */
  ghost predicate IsUploadEntry(e: Entry, path: Path, uploaded: Item, pending: bool, size: nat,
                                parentFolderId: string, expiresAt: int)
  {
    && e.state == Uploaded && !e.remoteDeleted
    && e.item == uploaded.(name := Base(path), parentId := Some(parentFolderId), size := size)
    && e.metadata == ToMetadata(e.item, path)
    && e.remoteId == (if pending then None else Some(uploaded.id))
    && e.parentFolderId == Some(parentFolderId)
    && e.expiresAt == expiresAt
  }

  /** The live entries directly below `folder`. */
  function ChildrenOf(o: Overlay, now: int, folder: Path): Overlay {
    map p | p in o && Parent(p) == folder && now < o[p].expiresAt :: o[p]
  }

  function ExpiredChildren(o: Overlay, now: int, folder: Path): set<Path> {
    set p | p in o && Parent(p) == folder && o[p].expiresAt <= now
  }

  /** The tombstones below `folder` whose object was trashed and is no longer listed. */
  function Settled(o: Overlay, folder: Path, listed: set<string>): set<Path> {
    set p | p in o && Parent(p) == folder && o[p].state == PendingDelete && o[p].remoteDeleted
            && (o[p].remoteId.None? || o[p].remoteId.value !in listed)
  }

  function SettledIds(o: Overlay, folder: Path, listed: set<string>): set<string> {
    set p | p in Settled(o, folder, listed) && o[p].remoteId.Some? :: o[p].remoteId.value
  }

  function Ids(items: seq<Item>): set<string> {
    set i | 0 <= i < |items| :: items[i].id
  }

  function CachePut(rows: map<Path, MetadataCache.Row>, metadata: Metadata, expiresAt: int): map<Path, MetadataCache.Row> {
    rows[metadata.path := MetadataCache.Row(MetadataCache.Encode(metadata), expiresAt)]
  }

  /** Where overlay, memory and cache stand after a pass over part of a listing. */
  ghost predicate Merged(b: Before, m: Merge, o: Overlay, o': Overlay, pti: map<Path, Item>, pti': map<Path, Item>,
                         rows: map<Path, MetadataCache.Row>, rows': map<Path, MetadataCache.Row>, expiresAt: int)
  {
    && m.children.Keys <= b.children.Keys
    && o' == o - (b.children.Keys - m.children.Keys)
    && pti' == pti + m.found
    && CachedAll(rows, rows', m.output, expiresAt)
  }

  lemma WhatMergedMeans(b: Before, m: Merge, o: Overlay, o': Overlay, pti: map<Path, Item>, pti': map<Path, Item>,
                        rows: map<Path, MetadataCache.Row>, rows': map<Path, MetadataCache.Row>, expiresAt: int)
    requires Merged(b, m, o, o', pti, pti', rows, rows', expiresAt)
    ensures o' == o - (b.children.Keys - m.children.Keys) && pti' == pti + m.found
    ensures CachedAll(rows, rows', m.output, expiresAt)
  {
  }

  lemma NothingMerged(b: Before, o: Overlay, pti: map<Path, Item>, rows: map<Path, MetadataCache.Row>, expiresAt: int)
    ensures Merged(b, Merge([], b.children, map[]), o, o, pti, pti, rows, rows, expiresAt)
  {
    assert o - (b.children.Keys - b.children.Keys) == o;
    assert pti + map[] == pti;
  }

  lemma MergedOneMore(b: Before, m: Merge, item: Item, settled: set<Path>,
                      o: Overlay, o1: Overlay, pti: map<Path, Item>, pti1: map<Path, Item>,
                      rows: map<Path, MetadataCache.Row>, rows1: map<Path, MetadataCache.Row>, expiresAt: int)
    requires Merged(b, m, o, o1, pti, pti1, rows, rows1, expiresAt)
    requires var p := Join(b.folder, item.name);
      settled == if Passes(b, m.children, item) && p in m.children then {p} else {}
    ensures var p := Join(b.folder, item.name);
      var passes := Passes(b, m.children, item);
      Merged(b, MergeOne(b, m, item), o, o1 - settled,
        pti, if passes then (pti1 - settled)[p := item] else pti1 - settled,
        rows, if passes then CachePut(rows1, ToMetadata(item, p), expiresAt) else rows1, expiresAt)
  {
    hide Passes, ToMetadata, MetadataCache.Encode, CachePut;
    var p := Join(b.folder, item.name);
    SlotsOneMore(o, b.children.Keys, m.children.Keys, settled);
    if Passes(b, m.children, item) {
      CacheOneMore(rows, m.output, ToMetadata(item, p), expiresAt);
      MemoryOneMore(pti, m.found, settled, p, item);
      assert m.children.Keys - settled == (m.children - {p}).Keys;
    } else {
      assert pti1 - settled == pti1 && m.children.Keys - settled == m.children.Keys;
    }
  }

  lemma SlotsOneMore(o: Overlay, children: set<Path>, covered: set<Path>, settled: set<Path>)
    requires settled <= covered <= children
    ensures o - (children - covered) - settled == o - (children - (covered - settled))
  {
  }

  lemma MemoryOneMore(pti: map<Path, Item>, found: map<Path, Item>, settled: set<Path>, p: Path, item: Item)
    requires settled <= {p}
    ensures (pti + found - settled)[p := item] == pti + found[p := item]
  {
  }

  lemma CacheOneMore(rows: map<Path, MetadataCache.Row>, output: seq<Metadata>, metadata: Metadata, expiresAt: int)
    ensures MetadataCache.PutAll(rows, output + [metadata], expiresAt)
         == CachePut(MetadataCache.PutAll(rows, output, expiresAt), metadata, expiresAt)
  {
    assert (output + [metadata])[..|output|] == output;
  }

  /** The remote ids the slots `paths` stand for. */
  function SlotIds(o: Overlay, paths: set<Path>): set<string> {
    set p | p in paths && p in o && o[p].remoteId.Some? :: o[p].remoteId.value
  }

  lemma SlotIdsOneMore(o: Overlay, paths: set<Path>, p: Path)
    requires p in o
    ensures SlotIds(o, paths + {p}) == SlotIds(o, paths) + if o[p].remoteId.Some? then {o[p].remoteId.value} else {}
  {
    forall id | id in SlotIds(o, paths + {p}) ensures id in SlotIds(o, paths) || o[p].remoteId == Some(id) {
      var q :| q in paths + {p} && q in o && o[q].remoteId == Some(id);
    }
  }

  /** The slots `done` are dropped, and what they hid is shown again. */
  ghost predicate Swept(o: Overlay, o': Overlay, pti: map<Path, Item>, pti': map<Path, Item>,
                        hidden: map<string, int>, hidden': map<string, int>, done: set<Path>)
  {
    o' == o - done && pti' == pti - done && hidden' == hidden - SlotIds(o, done)
  }

  lemma SettledHere(o: Overlay, folder: Path, listed: set<string>)
    ensures Settled(o, folder, listed) <= o.Keys
  {
  }

  lemma SweptNothing(o: Overlay, pti: map<Path, Item>, hidden: map<string, int>, settled: set<Path>)
    requires settled <= o.Keys
    ensures Swept(o, o, pti, pti, hidden, hidden, settled - o.Keys)
  {
    assert settled - o.Keys == {} && SlotIds(o, {}) == {};
  }

  lemma SweptOneMore(o: Overlay, o1: Overlay, pti: map<Path, Item>, pti1: map<Path, Item>,
                     hidden: map<string, int>, hidden1: map<string, int>, settled: set<Path>, rest: set<Path>, p: Path)
    requires Swept(o, o1, pti, pti1, hidden, hidden1, settled - rest) && p in rest && p in o
    ensures p in o1 && o1[p] == o[p]
    ensures Swept(o, if p in settled then o1 - {p} else o1, pti, if p in settled then pti1 - {p} else pti1, hidden,
                  if p in settled && o[p].remoteId.Some? then hidden1 - {o[p].remoteId.value} else hidden1,
                  settled - (rest - {p}))
  {
    hide SlotIds;
    if p in settled {
      SlotIdsOneMore(o, settled - rest, p);
      assert settled - (rest - {p}) == settled - rest + {p};
    } else {
      assert settled - (rest - {p}) == settled - rest;
    }
  }

  lemma SweptAll(o: Overlay, o': Overlay, pti: map<Path, Item>, pti': map<Path, Item>,
                 hidden: map<string, int>, hidden': map<string, int>, folder: Path, listed: set<string>)
    requires Swept(o, o', pti, pti', hidden, hidden', Settled(o, folder, listed) - {})
    ensures var settled := Settled(o, folder, listed);
      o' == o - settled && pti' == pti - settled && hidden' == hidden - SettledIds(o, folder, listed)
  {
    var settled := Settled(o, folder, listed);
    assert settled - {} == settled;
    assert SlotIds(o, settled) == SettledIds(o, folder, listed);
  }

  lemma SettledStill(o: Overlay, o': Overlay, folder: Path, listed: set<string>, p: Path)
    requires p in o && p in o' && o'[p] == o[p]
    ensures p in Settled(o', folder, listed) <==> p in Settled(o, folder, listed)
  {
  }

  /** The children of `folder` outside `rest` are gathered, and the expired ones dropped. */
  ghost predicate Gathered(o: Overlay, o': Overlay, pti: map<Path, Item>, pti': map<Path, Item>, children: Overlay,
                           now: int, folder: Path, rest: set<Path>)
  {
    var expired := ExpiredChildren(o, now, folder) - rest;
    children == ChildrenOf(o, now, folder) - rest && o' == o - expired && pti' == pti - expired
  }

  lemma GatheredNothing(o: Overlay, pti: map<Path, Item>, now: int, folder: Path)
    ensures Gathered(o, o, pti, pti, map[], now, folder, o.Keys)
  {
    assert ExpiredChildren(o, now, folder) - o.Keys == {};
  }

  lemma GatheredOneMore(o: Overlay, o1: Overlay, pti: map<Path, Item>, pti1: map<Path, Item>, children: Overlay,
                        now: int, folder: Path, rest: set<Path>, p: Path)
    requires Gathered(o, o1, pti, pti1, children, now, folder, rest) && p in rest && p in o
    ensures p in o1 && o1[p] == o[p]
    ensures Parent(p) != folder ==> Gathered(o, o1, pti, pti1, children, now, folder, rest - {p})
    ensures Parent(p) == folder && now < o[p].expiresAt ==>
      Gathered(o, o1, pti, pti1, children[p := o[p]], now, folder, rest - {p})
    ensures Parent(p) == folder && now >= o[p].expiresAt ==>
      Gathered(o, o1 - {p}, pti, pti1 - {p}, children, now, folder, rest - {p})
  {
    var expired, living := ExpiredChildren(o, now, folder), ChildrenOf(o, now, folder);
    hide ExpiredChildren, ChildrenOf;
    ChildOrExpired(o, now, folder, p);
    MapRestShrinks(living, rest, p);
    SetRestShrinks(expired, rest, p);
    assert p in expired ==> o1 - {p} == o - (expired - rest + {p}) && pti1 - {p} == pti - (expired - rest + {p});
  }

  lemma ChildOrExpired(o: Overlay, now: int, folder: Path, p: Path)
    requires p in o
    ensures p in ExpiredChildren(o, now, folder) <==> Parent(p) == folder && now >= o[p].expiresAt
    ensures p in ChildrenOf(o, now, folder) <==> Parent(p) == folder && now < o[p].expiresAt
    ensures p in ChildrenOf(o, now, folder) ==> ChildrenOf(o, now, folder)[p] == o[p]
  {
  }

  lemma MapRestShrinks<V>(m: map<Path, V>, rest: set<Path>, p: Path)
    requires p in rest
    ensures m - (rest - {p}) == if p in m then (m - rest)[p := m[p]] else m - rest
  {
  }

  lemma SetRestShrinks(s: set<Path>, rest: set<Path>, p: Path)
    requires p in rest
    ensures s - (rest - {p}) == if p in s then s - rest + {p} else s - rest
  {
  }

  lemma GatheredAll(o: Overlay, o': Overlay, pti: map<Path, Item>, pti': map<Path, Item>, children: Overlay, now: int, folder: Path)
    requires Gathered(o, o', pti, pti', children, now, folder, {})
    ensures children == ChildrenOf(o, now, folder)
    ensures o' == o - ExpiredChildren(o, now, folder) && pti' == pti - ExpiredChildren(o, now, folder)
  {
    assert ExpiredChildren(o, now, folder) - {} == ExpiredChildren(o, now, folder);
  }

  /** Memory holds the items of the entries in `order`, and is otherwise as before. */
  ghost predicate Learned(pti: map<Path, Item>, pti': map<Path, Item>, entries: Overlay, order: seq<Path>) {
    && (forall p :: p in pti' <==> p in pti || p in order)
    && (forall p :: p in order ==> p in entries && p in pti' && pti'[p] == entries[p].item)
    && (forall p :: p in pti && p !in order ==> p in pti' && pti'[p] == pti[p])
  }

  lemma EnumeratesNothing(m: Merge)
    ensures Enumerates([], Waiting(m) - m.children.Keys)
  {
  }

  lemma EnumeratesOneMore(m: Merge, order: seq<Path>, rest: set<Path>, p: Path)
    requires p in rest && Enumerates(order, Waiting(m) - rest)
    ensures Enumerates(order + if p in Waiting(m) then [p] else [], Waiting(m) - (rest - {p}))
  {
  }

  lemma LearnedNothing(pti: map<Path, Item>, entries: Overlay)
    ensures Learned(pti, pti, entries, [])
  {
  }

  lemma LearnedOneMore(pti: map<Path, Item>, pti1: map<Path, Item>, entries: Overlay, order: seq<Path>, p: Path)
    requires Learned(pti, pti1, entries, order) && p in entries
    ensures Learned(pti, pti1[p := entries[p].item], entries, order + [p])
  {
  }

  lemma LearnedAll(pti: map<Path, Item>, pti': map<Path, Item>, m: Merge, order: seq<Path>)
    requires Learned(pti, pti', m.children, order) && Enumerates(order, Waiting(m))
    ensures pti' == pti + WaitingItems(m)
  {
    assert forall p :: p in WaitingItems(m) <==> p in order;
  }

  /** The overlay after a list: expired children, settled uploads and settled tombstones are gone. */
  ghost function OverlayAfterList(o: Overlay, b: Before, items: seq<Item>): Overlay {
    o - ExpiredChildren(o, b.now, b.folder)
      - (b.children.Keys - MergeListing(b, items).children.Keys)
      - Settled(b.children, b.folder, Ids(items))
  }

  ghost function MemoryAfterList(pti: map<Path, Item>, o: Overlay, b: Before, items: seq<Item>): map<Path, Item> {
    var m := MergeListing(b, items);
    pti - ExpiredChildren(o, b.now, b.folder) + m.found + WaitingItems(m) - Settled(b.children, b.folder, Ids(items))
  }

  /** What is hidden stays hidden, except the ids of settled tombstones. */
  ghost predicate HiddenAfterList(h: map<string, int>, h': map<string, int>, b: Before, items: seq<Item>) {
    && (forall id :: id in h' ==> id in h && h'[id] == h[id])
    && (forall id :: id in h' ==> id !in SettledIds(b.children, b.folder, Ids(items)))
    && (forall id :: Hidden(h, b.now, id) && id !in SettledIds(b.children, b.folder, Ids(items)) ==> id in h')
  }

  lemma ShrinksNot(d: Disk)
    ensures Shrinks(d, d)
  {
  }

  lemma ShrinksBy(d: Disk, d': Disk, n: CopyName, gone: bool)
    requires d' == if gone then d - {n} else d
    ensures Shrinks(d, d')
  {
  }

  lemma ShrinksTwice(d0: Disk, d1: Disk, d2: Disk)
    requires Shrinks(d0, d1) && Shrinks(d1, d2)
    ensures Shrinks(d0, d2)
  {
  }

  function PathsOf(output: seq<Metadata>): set<Path> {
    set k | 0 <= k < |output| :: output[k].path
  }

  lemma EmittedAreUncovered(b: Before, items: seq<Item>)
    ensures PathsOf(MergeListing(b, items).output) !! MergeListing(b, items).children.Keys
  {
    PassesKeep(b, items);
  }

  lemma HiddenThenSwept(h: map<string, int>, h1: map<string, int>, b: Before, items: seq<Item>)
    requires HiddenPruned(h, h1, b.now)
    ensures HiddenAfterList(h, h1 - SettledIds(b.children, b.folder, Ids(items)), b, items)
  {
    hide SettledIds;
  }

  /** The promises of earlier deletes, as a predicate on values. */
  ghost predicate PromisesKept(h: map<string, int>, now: int, until: map<string, int>, lifted: set<string>) {
    forall id :: Promised(until, lifted, now, id) ==> id in h && until[id] <= h[id]
  }

  /** A list only lifts promises about objects that were trashed and are no longer listed. */
  lemma LedgerAfterList(h: map<string, int>, h': map<string, int>, b: Before, items: seq<Item>,
                        until: map<string, int>, lifted: set<string>)
    requires HiddenAfterList(h, h', b, items) && PromisesKept(h, b.now, until, lifted)
    ensures PromisesKept(h', b.now, until, lifted + SettledIds(b.children, b.folder, Ids(items)))
  {
    hide SettledIds;
  }

  /** The sweep finds the tombstones that were there at the start of the list. */
  lemma SettledUntouched(o: Overlay, b: Before, items: seq<Item>)
    requires b.children == ChildrenOf(o, b.now, b.folder)
    ensures var o1 := o - ExpiredChildren(o, b.now, b.folder) - (b.children.Keys - MergeListing(b, items).children.Keys);
      && Settled(o1, b.folder, Ids(items)) == Settled(b.children, b.folder, Ids(items))
      && SettledIds(o1, b.folder, Ids(items)) == SettledIds(b.children, b.folder, Ids(items))
  {
    PassesKeep(b, items);
    var m := MergeListing(b, items);
    var o1 := o - ExpiredChildren(o, b.now, b.folder) - (b.children.Keys - m.children.Keys);
    forall p | p in b.children && p !in m.children ensures b.children[p].state == Uploaded {
      var i: nat :| SettledBy(b, items, p, i);
    }
    assert forall p :: p in Settled(o1, b.folder, Ids(items)) <==> p in Settled(b.children, b.folder, Ids(items));
    assert forall p :: p in Settled(b.children, b.folder, Ids(items)) ==> o1[p] == b.children[p];
  }

  /** The cache is `rows0` with `output` put on top. */
  ghost predicate CachedAll(rows0: map<Path, MetadataCache.Row>, rows: map<Path, MetadataCache.Row>, output: seq<Metadata>, expiresAt: int) {
    rows == MetadataCache.PutAll(rows0, output, expiresAt)
  }

  /** Showing one more waiting upload. */
  lemma EmitOne(m: Merge, order: seq<Path>, p: Path, rows0: map<Path, MetadataCache.Row>, rows: map<Path, MetadataCache.Row>,
                output: seq<Metadata>, expiresAt: int)
    requires p in m.children && forall q :: q in order ==> q in m.children
    requires CachedAll(rows0, rows, output, expiresAt)
    ensures forall q :: q in order + [p] ==> q in m.children
    ensures OverlayPart(m, order + [p]) == OverlayPart(m, order) + [m.children[p].metadata]
    ensures CachedAll(rows0, CachePut(rows, m.children[p].metadata, expiresAt), output + [m.children[p].metadata], expiresAt)
  {
    hide CachePut;
    assert (order + [p])[..|order|] == order;
    CacheOneMore(rows0, output, m.children[p].metadata, expiresAt);
  }

  /** The provider's answer to an upload. A response without an id leaves the upload pending; a lost one leaves the
      bytes at the provider, while the upload fails. */
  datatype UploadAnswer =
    | Refused(error: CloudError)
    | Lost(freshId: string, error: CloudError)
    | Accepted(freshId: string, disclosed: bool, modifiedAt: Option<int>, fingerprint: Option<string>)

  /** The object an upload lands in. */
  function ObjectId(target: Option<string>, answer: UploadAnswer): string
    requires !answer.Refused?
  {
    if target.Some? then target.value else answer.freshId
  }

  /** What the provider holds after an upload to `target` was answered. */
  function ProviderAfter(provider: Provider, target: Option<string>, answer: UploadAnswer, file: RemoteFile): Provider {
    if answer.Refused? then provider else provider[ObjectId(target, answer) := file]
  }

  function UploadedItem(folderId: string, name: string, size: nat, target: Option<string>, answer: UploadAnswer): Item
    requires answer.Accepted?
  {
    Item(if answer.disclosed then ObjectId(target, answer) else "pending:upload:" + name,
         name, Some(folderId), false, size, answer.modifiedAt, answer.fingerprint, map[])
  }

  /** A lookup keeps slots, promises and faithfulness. */
  lemma LookupKeepsAll(v: View, v': View, d: Disk, d': Disk, u: nat, provider: Provider, until: map<string, int>, lifted: set<string>)
    requires Aged(v, v') && Shrinks(d, d')
    requires SlotsOk(v.overlay) && PromisesKept(v.hidden, v.now, until, lifted)
    requires CopiesPresent(v.overlay, d, u) && CopiesPresent(v'.overlay, d', u)
    ensures SlotsOk(v'.overlay) && PromisesKept(v'.hidden, v.now, until, lifted)
    ensures Pruned(v.overlay, v'.overlay, v.now) && Thinned(v.overlay, v'.overlay)
    ensures Faithful(v.overlay, v.now, d, provider) ==> Faithful(v'.overlay, v.now, d', provider)
  {
    hide SlotOk;
    if Faithful(v.overlay, v.now, d, provider) {
      ThinnedStaysFaithful(v.overlay, v'.overlay, v.now, d, d', u, provider);
    }
  }

  /** An upload changes no other slot, except that expired entries go and copies may be evicted. */
  lemma UploadLeavesOthers(o: Overlay, o1: Overlay, o2: Overlay, now: int, path: Path, uploaded: Item, pending: bool,
                           size: nat, folderId: string, expiresAt: int)
    requires Pruned(o, o1, now) && SlotsOk(o1)
    requires OnlyCopiesDropped(o1 - Expired(o1, now) - {path}, o2 - {path})
    requires path in o2 && IsUploadEntry(o2[path], path, uploaded, pending, size, folderId, expiresAt) && !uploaded.isFolder
    ensures SlotsOk(o2)
    ensures Thinned(o, o2 - {path}) && Thinned(o1, o2 - {path})
    ensures forall q :: q != path ==> (q in o2 <==> Live(o, now, q))
  {
    hide ToMetadata;
    var rest := o1 - Expired(o1, now) - {path};
    forall q | q in o2 ensures SlotOk(q, o2[q]) {
      if q != path {
        assert q in (o2 - {path}) && q in rest && SlotOk(q, o1[q]);
      }
    }
    forall q | q in o2 - {path} ensures q in o1 && (o2[q] == o1[q] || o2[q] == o1[q].(localPath := None)) {
      assert q in rest;
    }
    forall q | Live(o, now, q) && q != path ensures q in o2 {
      assert q in rest && q in o2 - {path};
    }
    forall q | q in o2 && q != path ensures Live(o, now, q) {
      assert q in o2 - {path} && q in rest;
    }
  }

  lemma PrunedNothing(o: Overlay, now: int)
    ensures Pruned(o, o, now)
  {
  }

  /** The entry of a finished upload is true to the object the upload gave its bytes. */
  lemma UploadEntryFaithful(e: Entry, path: Path, uploaded: Item, pending: bool, source: Bytes, folderId: string, expiresAt: int,
                            id: string, d: Disk, provider: Provider)
    requires IsUploadEntry(e, path, uploaded, pending, |source|, folderId, expiresAt)
    requires !uploaded.isFolder && (!pending ==> uploaded.id == id)
    requires e.localPath.Some? ==> e.localPath.value in d && d[e.localPath.value] == source
    ensures EntryFaithful(e, d, provider[id := RemoteFile(folderId, Base(path), source)])
  {
  }

  /** How two entries come to share an object: an upload moved from `src` to `dst`, the listing still shows its
      object at `src`, and the next upload to `src` is sent to replace it. */
  lemma StaleListingShares(v: View, remote: Remote, src: Path, dst: Path, parent: Item, children: seq<Item>, i: nat)
    requires src != [] && src != dst && !Known(v, src)
    requires Resolve(v, remote, Parent(src)) == Ok(Some(parent)) && parent.isFolder && remote.listing(parent.id) == Ok(children)
    requires i < |children| && Matches(v, Parent(src), Base(src), children[i]) && !children[i].isFolder
    requires forall j :: 0 <= j < |children| && Lower(children[j].name) == Lower(Base(src)) ==> children[j] == children[i]
    requires LiveUpload(v.overlay, v.now, dst) && v.overlay[dst].remoteId == Some(children[i].id)
    ensures TargetOf(v, remote, src, true) == Ok(Some(children[i].id))
    ensures forall d, bytes, kept :: |bytes| != AccountedSize(v.overlay[dst]) ==>
      !Spares(v.overlay, v.now, d, Some(src), children[i].id, bytes, kept)
  {
    ListedIsTarget(v, remote, src, parent, children, i);
  }

  /** What memory says of a path at the start of an upload decides its target. */
  lemma SeenTarget(v: View, seen: View, remote: Remote, path: Path, overwrite: bool, folderId: string, target: Option<string>)
    requires LookupEffects(v, seen, remote, Parent(path))
    requires UploadTarget(v, seen, remote, path, overwrite) == Ok((folderId, target))
    ensures LiveTombstone(v.overlay, v.now, path) ==> target == None
    ensures overwrite && path != [] && Known(v, path) ==> forall id :: Tied(v, path, id) ==> target == Some(id)
  {
    if LiveTombstone(v.overlay, v.now, path) {
      assert LiveTombstone(seen.overlay, seen.now, path);
    }
    if overwrite && path != [] && Known(v, path) {
      forall id | Tied(v, path, id) ensures target == Some(id) {
        KnownStaysTied(v, seen, remote, Parent(path), path, id);
        KnownIsTarget(seen, remote, path, id);
      }
    }
  }

  /** What an upload that the provider took does to memory: the path gets a live entry and is remembered with its
      item; of the other slots exactly the live ones stay, some without their copy. */
  ghost predicate UploadLanded(v: View, v': View, path: Path, uploaded: Item, pending: bool, size: nat, folderId: string,
                               expiresAt: int)
  {
    && path in v'.overlay && IsUploadEntry(v'.overlay[path], path, uploaded, pending, size, folderId, expiresAt)
    && Thinned(v.overlay, v'.overlay - {path})
    && (forall q :: q != path ==> (q in v'.overlay <==> Live(v.overlay, v.now, q)))
    && path in v'.pathToItem && v'.pathToItem[path] == v'.overlay[path].item
    && HiddenPruned(v.hidden, v'.hidden, v.now) && v'.now == v.now
  }

  lemma LandedAfterLookup(v: View, v1: View, v2: View, path: Path, uploaded: Item, pending: bool, size: nat, folderId: string,
                          expiresAt: int)
    requires Aged(v, v1) && UploadLanded(v1, v2, path, uploaded, pending, size, folderId, expiresAt)
    ensures UploadLanded(v, v2, path, uploaded, pending, size, folderId, expiresAt)
  {
    hide IsUploadEntry;
    forall q | q != path ensures q in v2.overlay <==> Live(v.overlay, v.now, q) {
      assert Live(v1.overlay, v1.now, q) <==> Live(v.overlay, v.now, q);
    }
  }

  lemma LandedTies(v: View, v': View, path: Path, folderId: string, size: nat, target: Option<string>, answer: UploadAnswer, expiresAt: int)
    requires answer.Accepted?
    requires UploadLanded(v, v', path, UploadedItem(folderId, Base(path), size, target, answer), !answer.disclosed, size, folderId, expiresAt)
    ensures answer.disclosed ==> Tied(v', path, ObjectId(target, answer))
    ensures answer.disclosed && expiresAt > v.now ==> Known(v', path)
  {
    hide ToMetadata, Thinned, HiddenPruned;
  }

  lemma WhatProviderAfter(provider: Provider, target: Option<string>, answer: UploadAnswer, file: RemoteFile)
    ensures ProviderAfter(provider, target, answer, file) ==
      if answer.Refused? then provider else provider[ObjectId(target, answer) := file]
  {
  }

  /** Whether the live uploads are true to the provider after an upload that landed. */
  lemma UploadOutcome(v: View, v': View, d: Disk, d1: Disk, d': Disk, u: nat, u': nat, provider: Provider, path: Path, uploaded: Item,
                      pending: bool, source: Bytes, folderId: string, expiresAt: int, id: string)
    requires UploadLanded(v, v', path, uploaded, pending, |source|, folderId, expiresAt)
    requires !uploaded.isFolder && (!pending ==> uploaded.id == id)
    requires CopiesPresent(v.overlay, d, u) && CopiesPresent(v'.overlay, d', u') && Shrinks(d, d1) && OldFilesKept(d1, d', u)
    requires var e := v'.overlay[path]; e.localPath.Some? ==> e.localPath.value in d' && d'[e.localPath.value] == source
    ensures Faithful(v.overlay, v.now, d, provider) ==>
      (Faithful(v'.overlay, v.now, d', provider[id := RemoteFile(folderId, Base(path), source)]) <==>
         Spares(v.overlay, v.now, d, Some(path), id, source, KeptCopies(v'.overlay)))
  {
    hide Faithful, Spares, KeptCopies, IsUploadEntry, EntryFaithful, Thinned;
    if Faithful(v.overlay, v.now, d, provider) {
      UploadEntryFaithful(v'.overlay[path], path, uploaded, pending, source, folderId, expiresAt, id, d', provider);
      UploadFaithfulIff(v.overlay, v'.overlay, v.now, d, d', u, provider, Some(path), id, RemoteFile(folderId, Base(path), source));
    }
  }

  /** All of it, from the state before the upload to the one after. */
  lemma UploadDone(v: View, seen: View, v1: View, v': View, remote: Remote, d: Disk, d1: Disk, d': Disk, u: nat, u': nat,
                   provider: Provider, path: Path, folderId: string, source: Bytes, target: Option<string>, answer: UploadAnswer,
                   expiresAt: int)
    requires answer.Accepted? && Aged(v, v1) && LookupEffects(seen, v1, remote, path) && ForgetsElsewhere(v1, v', path)
    requires UploadLanded(v1, v', path, UploadedItem(folderId, Base(path), |source|, target, answer), !answer.disclosed, |source|,
                          folderId, expiresAt)
    requires CopiesPresent(v.overlay, d, u) && CopiesPresent(v'.overlay, d', u') && Shrinks(d, d1) && OldFilesKept(d1, d', u)
    requires var e := v'.overlay[path]; e.localPath.Some? ==> e.localPath.value in d' && d'[e.localPath.value] == source
    ensures UploadLanded(v, v', path, UploadedItem(folderId, Base(path), |source|, target, answer), !answer.disclosed, |source|,
                         folderId, expiresAt)
    ensures LearnsElsewhere(seen, v', remote, path)
    ensures answer.disclosed ==> Tied(v', path, ObjectId(target, answer)) && (expiresAt > v.now ==> Known(v', path))
    ensures Faithful(v.overlay, v.now, d, provider) ==>
      (Faithful(v'.overlay, v.now, d', ProviderAfter(provider, target, answer, RemoteFile(folderId, Base(path), source))) <==>
         Spares(v.overlay, v.now, d, Some(path), ObjectId(target, answer), source, KeptCopies(v'.overlay)))
  {
    hide Aged, LookupEffects, ForgetsElsewhere, UploadLanded, CopiesPresent, Shrinks, OldFilesKept, LearnsElsewhere, Tied, Known,
         Faithful, Spares, KeptCopies, LearnsFrom;
    var uploaded := UploadedItem(folderId, Base(path), |source|, target, answer);
    LandedAfterLookup(v, v1, v', path, uploaded, !answer.disclosed, |source|, folderId, expiresAt);
    UploadOutcome(v, v', d, d1, d', u, u', provider, path, uploaded, !answer.disclosed, source, folderId, expiresAt,
                  ObjectId(target, answer));
    LookupLearns(seen, v1, remote, path);
    LearnsThenForgets(seen, v1, v', remote, path);
    LandedTies(v, v', path, folderId, |source|, target, answer, expiresAt);
  }

  /** And after one whose answer was lost. */
  lemma LostUploadOutcome(v: View, v': View, d: Disk, d': Disk, u: nat, provider: Provider, id: string, file: RemoteFile)
    requires Aged(v, v') && Shrinks(d, d') && CopiesPresent(v.overlay, d, u) && CopiesPresent(v'.overlay, d', u)
    ensures Faithful(v.overlay, v.now, d, provider) ==>
      (Faithful(v'.overlay, v.now, d', provider[id := file]) <==>
         Spares(v.overlay, v.now, d, None, id, file.bytes, KeptCopies(v'.overlay)))
  {
    hide Faithful, Spares, KeptCopies, EntryFaithful;
    if Faithful(v.overlay, v.now, d, provider) {
      UploadFaithfulIff(v.overlay, v'.overlay, v.now, d, d', u, provider, None, id, file);
    }
  }

  /** A live upload without its copy is served by the provider as its copy would be. */
  lemma UploadFetched(e: Entry, path: Path, d: Disk, provider: Provider, range: Option<ByteRange>)
    requires SlotOk(path, e) && e.state == Uploaded && e.remoteId.Some? && EntryFaithful(e, d, provider)
    requires Satisfiable(range, |provider[e.remoteId.value].bytes|)
    ensures AccountedSize(e) == 0 ==> LocalSlice(provider[e.remoteId.value].bytes, range) == []
    ensures AccountedSize(e) > 0 ==> Fetch(provider, e.item, range) == Ok(LocalSlice(provider[e.remoteId.value].bytes, range))
  {
    hide WeakETag;
    assert e.item.size == AccountedSize(e);
    var bytes := provider[e.remoteId.value].bytes;
    assert bytes[..|bytes|] == bytes;
  }

  /** The metadata of what a lookup of `p` found. */
  function Described(found: Result<Option<Item>>, p: Path): Result<Option<Metadata>> {
    match found
    case Err(e) => Err(e)
    case Ok(None) => Ok(None)
    case Ok(Some(item)) => Ok(Some(ToMetadata(item, p)))
  }

  /** The cache after such a lookup. */
  function Cached(found: Result<Option<Item>>, p: Path, rows: map<Path, MetadataCache.Row>, now: int, ttl: nat, negativeTtl: nat):
    map<Path, MetadataCache.Row>
  {
    match found
    case Err(_) => rows
    case Ok(None) => rows[p := MetadataCache.Row(MetadataCache.NEGATIVE, now + negativeTtl)]
    case Ok(Some(item)) => CachePut(rows, ToMetadata(item, p), now + ttl)
  }

  /** `get_metadata` as a function of memory, cache and the provider's answers. */
  function MetadataAt(v: View, rows: map<Path, MetadataCache.Row>, remote: Remote, p: Path): Result<Option<Metadata>> {
    if Live(v.overlay, v.now, p) then
      Ok(if v.overlay[p].state == PendingDelete then None else Some(v.overlay[p].metadata))
    else if MetadataCache.Lookup(rows, v.now, p).Some? then
      Ok(MetadataCache.Lookup(rows, v.now, p))
    else
      Described(Resolve(v, remote, p), p)
  }

  /** The cache after `get_metadata`. */
  function RowsAfterLook(v: View, rows: map<Path, MetadataCache.Row>, remote: Remote, p: Path, ttl: nat, negativeTtl: nat):
    map<Path, MetadataCache.Row>
  {
    if Live(v.overlay, v.now, p) || MetadataCache.Lookup(rows, v.now, p).Some? then rows
    else Cached(Resolve(v, remote, p), p, rows, v.now, ttl, negativeTtl)
  }

  lemma LookCases(v: View, rows: map<Path, MetadataCache.Row>, remote: Remote, p: Path, ttl: nat, negativeTtl: nat)
    ensures Live(v.overlay, v.now, p) ==>
      && MetadataAt(v, rows, remote, p) == Ok(if v.overlay[p].state == PendingDelete then None else Some(v.overlay[p].metadata))
      && RowsAfterLook(v, rows, remote, p, ttl, negativeTtl) == rows
    ensures !Live(v.overlay, v.now, p) && MetadataCache.Lookup(rows, v.now, p).Some? ==>
      && MetadataAt(v, rows, remote, p) == Ok(MetadataCache.Lookup(rows, v.now, p))
      && RowsAfterLook(v, rows, remote, p, ttl, negativeTtl) == rows
    ensures !Live(v.overlay, v.now, p) && MetadataCache.Lookup(rows, v.now, p).None? ==>
      && MetadataAt(v, rows, remote, p) == Described(Resolve(v, remote, p), p)
      && RowsAfterLook(v, rows, remote, p, ttl, negativeTtl) == Cached(Resolve(v, remote, p), p, rows, v.now, ttl, negativeTtl)
  {
  }

  /** What a list of `folder` starts from. */
  ghost function BeforeList(v: View, folder: Path): Before {
    Before(folder, ChildrenOf(v.overlay, v.now, folder), v.hidden, v.now)
  }

  /** What `list` emitted is what `get_metadata` answers at any moment `t` until the cache forgets it, whatever
      the provider says by then. */
  lemma ListedIsKnown(o: Overlay, b: Before, items: seq<Item>, order: seq<Path>, rows0: map<Path, MetadataCache.Row>,
                      rows: map<Path, MetadataCache.Row>, expiresAt: int, k: nat, v: View, remote: Remote)
    requires b.children == ChildrenOf(o, b.now, b.folder) && Keyed(b)
    requires NamesDistinct(b, items) && Enumerates(order, Waiting(MergeListing(b, items)))
    requires CachedAll(rows0, rows, ListOutput(b, items, order), expiresAt)
    requires v.overlay == OverlayAfterList(o, b, items) && b.now <= v.now <= expiresAt
    requires k < |ListOutput(b, items, order)|
    ensures var meta := ListOutput(b, items, order)[k]; MetadataAt(v, rows, remote, meta.path) == Ok(Some(meta))
  {
    hide MetadataCache.Lookup, Keyed, NamesDistinct, ListOutput, OverlayAfterList, Resolve;
    EachPathOnce(b, items, order);
    MetadataCache.PutAllFinds(rows0, ListOutput(b, items, order), expiresAt, v.now, k);
    ListedSlot(o, b, items, order, k);
  }

  /** The slot of a path that comes out of a list is empty afterwards, or holds the upload that came out. */
  lemma ListedSlot(o: Overlay, b: Before, items: seq<Item>, order: seq<Path>, k: nat)
    requires b.children == ChildrenOf(o, b.now, b.folder) && Keyed(b)
    requires NamesDistinct(b, items) && Enumerates(order, Waiting(MergeListing(b, items)))
    requires k < |ListOutput(b, items, order)|
    ensures var meta, o' := ListOutput(b, items, order)[k], OverlayAfterList(o, b, items);
      meta.path in o' ==> o'[meta.path].state == Uploaded && o'[meta.path].metadata == meta
  {
    hide *;
    OutputParts(b, items, order, k);
    var m := MergeListing(b, items);
    if k < |m.output| {
      RemoteSlot(o, b, items, m.output[k]);
    } else {
      WaitingSlot(o, b, items, order, k - |m.output|);
    }
  }

  lemma OutputParts(b: Before, items: seq<Item>, order: seq<Path>, k: nat)
    requires Enumerates(order, Waiting(MergeListing(b, items))) && k < |ListOutput(b, items, order)|
    ensures forall p :: p in order ==> p in MergeListing(b, items).children
    ensures var m := MergeListing(b, items);
      && k < |m.output| + |order|
      && ListOutput(b, items, order)[k] == if k < |m.output| then m.output[k] else OverlayPart(m, order)[k - |m.output|]
  {
    hide Waiting;
    WaitingHere(MergeListing(b, items));
  }

  lemma WaitingHere(m: Merge)
    ensures Waiting(m) <= m.children.Keys
  {
  }

  lemma RemoteSlot(o: Overlay, b: Before, items: seq<Item>, meta: Metadata)
    requires b.children == ChildrenOf(o, b.now, b.folder) && NamesDistinct(b, items) && meta in MergeListing(b, items).output
    ensures meta.path !in OverlayAfterList(o, b, items)
  {
    hide *;
    RemotePartSound(b, items, meta);
    RemoteChildOfFolder(b, items, meta);
    CoveredSlots(o, b, items, meta.path);
  }

  lemma WaitingSlot(o: Overlay, b: Before, items: seq<Item>, order: seq<Path>, j: nat)
    requires b.children == ChildrenOf(o, b.now, b.folder) && Keyed(b) && Enumerates(order, Waiting(MergeListing(b, items)))
    requires j < |order|
    ensures var meta, o' := OverlayPart(MergeListing(b, items), order)[j], OverlayAfterList(o, b, items);
      meta.path in o' ==> o'[meta.path].state == Uploaded && o'[meta.path].metadata == meta
  {
    hide ToMetadata, OverlayAfterList, ShowsUpload;
    OverlayPartSound(b, items, order, j);
    assert order[j] in Waiting(MergeListing(b, items));
    UploadSlot(o, b, items, order[j]);
  }

  lemma UploadSlot(o: Overlay, b: Before, items: seq<Item>, p: Path)
    requires b.children == ChildrenOf(o, b.now, b.folder) && p in MergeListing(b, items).children
    ensures p in OverlayAfterList(o, b, items) ==> OverlayAfterList(o, b, items)[p] == MergeListing(b, items).children[p]
  {
    hide ToMetadata, FoundOk;
    PassesKeep(b, items);
  }

  /** Children that the pass settled, or that had expired, have no slot afterwards. */
  lemma CoveredSlots(o: Overlay, b: Before, items: seq<Item>, p: Path)
    requires b.children == ChildrenOf(o, b.now, b.folder) && Parent(p) == b.folder && p !in MergeListing(b, items).children
    ensures p !in OverlayAfterList(o, b, items)
  {
  }

  lemma RemoteChildOfFolder(b: Before, items: seq<Item>, meta: Metadata)
    requires meta in MergeListing(b, items).output
    ensures Parent(meta.path) == b.folder
  {
    HiddenNeverEmitted(b, items);
  }

  /** `output` is what a list of `folder` makes of `items` from memory `v`, leaving memory `v'`. */
  ghost predicate ListedFrom(v: View, v': View, folder: Path, items: seq<Item>, b: Before, order: seq<Path>, output: seq<Metadata>) {
    && b == Before(folder, ChildrenOf(v.overlay, v.now, folder), v.hidden, v.now) && Keyed(b)
    && Enumerates(order, Waiting(MergeListing(b, items)))
    && output == ListOutput(b, items, order)
    && v'.now == v.now
    && v'.overlay == OverlayAfterList(v.overlay, b, items)
    && v'.pathToItem == MemoryAfterList(v.pathToItem, v.overlay, b, items)
    && HiddenAfterList(v.hidden, v'.hidden, b, items)
  }

  /** An accepted delete of `id` is still in force. */
  ghost predicate Promised(until: map<string, int>, lifted: set<string>, now: int, id: string) {
    id in until && id !in lifted && now < until[id]
  }

  /** No object whose delete is in force comes out of the listing. */
  ghost predicate NoneEmitted(until: map<string, int>, lifted: set<string>, b: Before, items: seq<Item>) {
    forall k :: 0 <= k < |MergeListing(b, items).output| ==>
      !Promised(until, lifted, b.now, MergeListing(b, items).output[k].id)
  }

  lemma PromisedNotEmitted(h: map<string, int>, until: map<string, int>, lifted: set<string>, b: Before, items: seq<Item>)
    requires PromisesKept(h, b.now, until, lifted) && b.hidden == h
    ensures NoneEmitted(until, lifted, b, items)
  {
    HiddenNeverEmitted(b, items);
  }

  /** A list keeps the slots and the faithfulness of the overlay. */
  lemma ListKeepsAll(o: Overlay, d: Disk, d': Disk, u: nat, provider: Provider, b: Before, items: seq<Item>)
    requires SlotsOk(o) && b.children == ChildrenOf(o, b.now, b.folder) && Shrinks(d, d')
    requires CopiesPresent(o, d, u) && CopiesPresent(OverlayAfterList(o, b, items), d', u)
    ensures SlotsOk(OverlayAfterList(o, b, items)) && Keyed(b)
    ensures Faithful(o, b.now, d, provider) ==> Faithful(OverlayAfterList(o, b, items), b.now, d', provider)
  {
    hide ToMetadata;
    var o' := OverlayAfterList(o, b, items);
    assert Thinned(o, o');
    forall p | p in b.children ensures b.children[p].metadata.path == p {
      assert SlotOk(p, o[p]);
      MetadataAtPath(o[p].item, p);
    }
    if Faithful(o, b.now, d, provider) {
      ThinnedStaysFaithful(o, o', b.now, d, d', u, provider);
    }
  }

  function Tombstone(path: Path, item: Item, remoteId: Option<string>, expiresAt: int): Entry {
    Entry(PendingDelete, item, ToMetadata(item, path), None, remoteId, item.parentId, expiresAt, false)
  }

  /** The background task a delete leaves behind. */
  datatype Scheduled = Nothing | TrashObject(item: Item) | FindThenTrash(entry: Entry)

  lemma SlotIsOk(o: Overlay, path: Path)
    requires SlotsOk(o) && path in o
    ensures SlotOk(path, o[path])
  {
  }

  lemma TombstoneIsBare(o: Overlay, path: Path)
    requires SlotsOk(o) && path in o && o[path].state == PendingDelete
    ensures !HasCopy(o, path)
  {
    assert SlotOk(path, o[path]);
  }

  /** Apart from the slot of `path`, which holds no copy afterwards, only expired entries went. */
  ghost predicate OnlySlotChanged(o: Overlay, o': Overlay, now: int, path: Path) {
    && (forall q :: q in o' && q != path ==> q in o && o'[q] == o[q])
    && (forall q :: Live(o, now, q) && q != path ==> q in o')
    && !HasCopy(o', path)
  }

  lemma BareSlotPut(v: View, v': View, path: Path, e: Entry)
    requires Aged(v, v') && e.localPath.None?
    ensures OnlySlotChanged(v.overlay, v'.overlay[path := e], v.now, path)
  {
  }

  lemma AgedSlotChange(v: View, v1: View, o2: Overlay, path: Path)
    requires Aged(v, v1) && OnlySlotChanged(v1.overlay, o2, v.now, path)
    ensures OnlySlotChanged(v.overlay, o2, v.now, path)
  {
    assert forall q :: Live(v.overlay, v.now, q) ==> Live(v1.overlay, v.now, q);
  }

  lemma BareSlotKept(v: View, v': View, path: Path)
    requires Aged(v, v') && !HasCopy(v'.overlay, path)
    ensures OnlySlotChanged(v.overlay, v'.overlay, v.now, path)
  {
  }

  /** `move` of an object outside the overlay, as a function of memory and of the provider's answers. */
  ghost predicate RemoteMoveAnswer(v: View, remote: Remote, src: Path, dst: Path, parentId: string, renamed: Result<()>, r: Result<Metadata>) {
    r == RemoteMoveResult(v, remote, src, dst, parentId, renamed)
  }

  function RemoteMoveResult(v: View, remote: Remote, src: Path, dst: Path, parentId: string, renamed: Result<()>): Result<Metadata> {
    match Resolve(v, remote, src)
    case Err(e) => Err(e)
    case Ok(None) => Err(NotFound)
    case Ok(Some(item)) =>
      if renamed.Err? then Err(renamed.error)
      else Ok(ToMetadata(item.(name := Base(dst), parentId := Some(parentId)), dst))
  }

  /** How a trash call ends. `Unseen` is one that did its work although its answer was lost. */
  datatype TrashOutcome = Trashed | Unseen | GaveUp

  function MarkDeleted(o: Overlay, path: Path): Overlay {
    if path in o && o[path].state == PendingDelete then o[path := o[path].(remoteDeleted := true)] else o
  }

  /** Tombstones marked as carried out are those of trashed objects. */
  ghost predicate MarksTrue(o: Overlay, trashed: set<string>) {
    forall p :: p in o && o[p].state == PendingDelete && o[p].remoteDeleted && o[p].remoteId.Some? ==>
      o[p].remoteId.value in trashed
  }

  /** The tombstone at `path` is neither that of the object `id` nor of one that was trashed. */
  ghost predicate MisleadsMark(o: Overlay, trashed: set<string>, path: Path, id: string) {
    && path in o && o[path].state == PendingDelete && o[path].remoteId.Some?
    && o[path].remoteId.value != id && o[path].remoteId.value !in trashed
  }

  lemma MarkedTruly(o: Overlay, trashed: set<string>, path: Path, id: string)
    requires MarksTrue(o, trashed)
    ensures MarksTrue(MarkDeleted(o, path), trashed + {id}) <==> !MisleadsMark(o, trashed, path, id)
    ensures MarksTrue(o, trashed + {id})
  {
    var o' := MarkDeleted(o, path);
    if MisleadsMark(o, trashed, path, id) {
      assert o'[path].remoteDeleted && o'[path].remoteId.value !in trashed + {id};
    }
  }

  lemma MarkKeeps(o: Overlay, now: int, path: Path, d: Disk, provider: Provider)
    requires SlotsOk(o)
    ensures CopiesOf(MarkDeleted(o, path)) == CopiesOf(o) && SlotsOk(MarkDeleted(o, path))
    ensures Faithful(MarkDeleted(o, path), now, d, provider) <==> Faithful(o, now, d, provider)
  {
    hide ToMetadata;
    var o' := MarkDeleted(o, path);
    forall p | p in o
      ensures EntryFaithful(o'[p], d, provider) <==> EntryFaithful(o[p], d, provider)
      ensures Live(o', now, p) <==> Live(o, now, p)
    {
    }
    if path in o {
      assert SlotOk(path, o[path]);
    }
  }

  /** When every mark is true, a list lifts only promises about trashed objects. */
  lemma LiftedAreTrashed(o: Overlay, folder: Path, listed: set<string>, trashed: set<string>)
    requires MarksTrue(o, trashed)
    ensures SettledIds(o, folder, listed) <= trashed
    ensures SettledIds(o, folder, listed) !! listed
  {
  }

  /** Something must be there. */
  function Present(r: Result<Option<Metadata>>): Result<Metadata> {
    match r
    case Err(e) => Err(e)
    case Ok(None) => Err(NotFound)
    case Ok(Some(m)) => Ok(m)
  }

  /** The entry of a moved upload: only its name, folder and path change. */
  function MovedEntry(e: Entry, dst: Path, parentId: string): Entry {
    var item := e.item.(name := Base(dst), parentId := Some(parentId));
    Entry(e.state, item, ToMetadata(item, dst), e.localPath, e.remoteId, Some(parentId), e.expiresAt, false)
  }

  /** A recent upload has moved: its entry, renamed, is in the slot of `dst`, and every other live slot stays. */
  ghost predicate UploadMoved(o: Overlay, o': Overlay, pti': map<Path, Item>, now: int, src: Path, dst: Path, parentId: string,
                              metadata: Metadata)
    requires src in o
  {
    && src !in o' && src !in pti'
    && dst in o' && o'[dst] == MovedEntry(o[src], dst, parentId)
    && dst in pti' && pti'[dst] == o'[dst].item
    && metadata == o'[dst].metadata
    && (forall q :: q in o' && q != dst ==> q in o && o'[q] == o[q])
    && (forall q :: Live(o, now, q) && q != src && q != dst ==> q in o' && o'[q] == o[q])
  }

  lemma EntryMoved(o: Overlay, pti: map<Path, Item>, now: int, src: Path, dst: Path, parentId: string)
    requires src in o && src != dst
    ensures var moved := MovedEntry(o[src], dst, parentId);
      UploadMoved(o, (o - {src})[dst := moved], (pti - {src})[dst := moved.item], now, src, dst, parentId, moved.metadata)
  {
    hide MovedEntry;
  }

  /** `move` to a clear destination: a recent upload moves in memory, any other object at the provider. */
  ghost predicate MoveDone(clear: View, v': View, remote: Remote, src: Path, dst: Path, folderId: string, renamed: Result<()>,
                           r: Result<Metadata>)
  {
    if LiveUpload(clear.overlay, clear.now, src) then
      && r.Ok? && UploadMoved(clear.overlay, v'.overlay, v'.pathToItem, clear.now, src, dst, folderId, r.value)
      && ForgetsElsewhere(clear, v', dst)
    else
      RemoteMoveAnswer(clear, remote, src, dst, folderId, renamed, r) && Pruned(clear.overlay, v'.overlay, clear.now)
  }

  /** `move` once its folder was found. A recent upload moves at once: its slot goes over to the destination with its
      copy, its object and its expiry, and every other live slot stays. */
  ghost predicate MoveAnswered(v: View, seen: View, found: View, clear: View, v': View, rows: map<Path, MetadataCache.Row>,
                               remote: Remote, src: Path, dst: Path, folderId: string, overwrite: bool, trash: Result<()>,
                               renamed: Result<()>, r: Result<Metadata>, scheduled: Scheduled, ttl: nat)
  {
    var (c, left) := ClearAnswer(seen, found, rows, remote, dst, overwrite, trash);
    && scheduled == left
    && (!overwrite ==> clear == found)
    && match c
       case Err(e) => r == Err(e) && (!overwrite ==> Pruned(v.overlay, v'.overlay, v.now))
       case Ok(_) =>
         && ClearedTo(found, clear, remote, dst, scheduled, ttl)
         && if LiveUpload(v.overlay, v.now, src) then
           && r.Ok? && UploadMoved(v.overlay, v'.overlay, v'.pathToItem, v.now, src, dst, folderId, r.value)
           && ForgetsElsewhere(clear, v', dst)
         else
           RemoteMoveAnswer(clear, remote, src, dst, folderId, renamed, r) && Pruned(clear.overlay, v'.overlay, v.now)
  }

  /** What clearing `dst` makes of memory. */
  ghost predicate ClearedTo(found: View, clear: View, remote: Remote, dst: Path, scheduled: Scheduled, ttl: nat) {
    && clear.now == found.now && LearnsFrom(found, clear, remote)
    && OnlySlotChanged(found.overlay, clear.overlay, found.now, dst)
    && HidesAfter(found.hidden, clear.hidden, found.now, scheduled)
    && BuriedAfter(found.overlay, clear.overlay, found.now, dst, scheduled, ttl)
  }

  /** What a metadata read of the destination shows after a successful move. */
  function ShownAfterMove(v: View, src: Path, dst: Path, scheduled: Scheduled, ttl: nat, moved: Metadata): Option<Metadata> {
    if !LiveUpload(v.overlay, v.now, src) && (LiveTombstone(v.overlay, v.now, dst) || (!scheduled.Nothing? && ttl > 0)) then None
    else Some(moved)
  }

  /** A file is seen at `dst`: a recent upload, or an object that is no folder. */
  predicate FileAt(v: View, found: View, rows: map<Path, MetadataCache.Row>, remote: Remote, dst: Path) {
    && MetadataAt(v, rows, remote, dst).Ok? && MetadataAt(v, rows, remote, dst).value.Some?
    && (Live(found.overlay, found.now, dst)
        || match Resolve(found, remote, dst)
           case Ok(Some(item)) => !item.isFolder
           case _ => false)
  }

  /** A move leaves a new tombstone at its destination exactly when it overwrites a file. */
  lemma OverwritingLeavesTombstone(v: View, found: View, rows: map<Path, MetadataCache.Row>, remote: Remote, dst: Path,
                                   overwrite: bool, trash: Result<()>)
    requires Aged(v, found)
    ensures var (cleared, scheduled) := ClearAnswer(v, found, rows, remote, dst, overwrite, trash);
      cleared.Ok? ==> (!scheduled.Nothing? <==> overwrite && FileAt(v, found, rows, remote, dst))
  {
    hide Resolve;
    assert Live(found.overlay, found.now, dst) ==> Live(v.overlay, v.now, dst) && found.overlay[dst] == v.overlay[dst];
  }

  /** A destination where nothing is seen is clear already. */
  lemma ClearAlready(v: View, found: View, rows: map<Path, MetadataCache.Row>, remote: Remote, dst: Path, ttl: nat)
    requires Aged(v, found) && MetadataAt(v, rows, remote, dst) == Ok(None) && !HasCopy(found.overlay, dst)
    ensures ClearedTo(found, found, remote, dst, Nothing, ttl) && BuriedAfter(v.overlay, found.overlay, v.now, dst, Nothing, ttl)
  {
    hide Resolve;
  }

  lemma ClearedByDelete(v: View, found: View, clear: View, remote: Remote, dst: Path, scheduled: Scheduled, ttl: nat)
    requires Aged(v, found) && clear.now == found.now && LearnsFrom(found, clear, remote)
    requires OnlySlotChanged(found.overlay, clear.overlay, found.now, dst) && HidesAfter(found.hidden, clear.hidden, found.now, scheduled)
    requires BuriedAfter(found.overlay, clear.overlay, found.now, dst, scheduled, ttl)
    ensures OnlySlotChanged(v.overlay, clear.overlay, v.now, dst) && ClearedTo(found, clear, remote, dst, scheduled, ttl)
    ensures BuriedAfter(v.overlay, clear.overlay, v.now, dst, scheduled, ttl)
  {
    hide OnlySlotChanged, HidesAfter, LearnsFrom, BuriedAfter;
    AgedSlotChange(v, found, clear.overlay, dst);
    BuriedAlong(v, found, clear.overlay, dst, scheduled, ttl);
  }

  lemma ShownOnceClear(v: View, clear: View, src: Path, dst: Path, scheduled: Scheduled, ttl: nat)
    requires BuriedAfter(v.overlay, clear.overlay, v.now, dst, scheduled, ttl) && clear.now == v.now
    requires LiveUpload(clear.overlay, clear.now, src) <==> LiveUpload(v.overlay, v.now, src)
    ensures !LiveUpload(clear.overlay, clear.now, dst)
    ensures forall moved :: ShownAfterMove(clear, src, dst, Nothing, 0, moved) == ShownAfterMove(v, src, dst, scheduled, ttl, moved)
  {
  }

  /** A live slot is still there after lookups, and no other became live. */
  lemma LiveStays(v: View, o': Overlay, p: Path)
    requires Pruned(v.overlay, o', v.now)
    ensures Live(o', v.now, p) <==> Live(v.overlay, v.now, p)
    ensures LiveTombstone(o', v.now, p) <==> LiveTombstone(v.overlay, v.now, p)
  {
  }

  /** A live slot other than `dst` is untouched when `dst` is cleared. */
  lemma SlotsAlong(v: View, clear: View, dst: Path)
    requires OnlySlotChanged(v.overlay, clear.overlay, v.now, dst) && clear.now == v.now
    ensures forall q :: q != dst && Live(v.overlay, v.now, q) ==> q in clear.overlay && clear.overlay[q] == v.overlay[q]
    ensures forall q :: q != dst ==> (LiveUpload(clear.overlay, v.now, q) <==> LiveUpload(v.overlay, v.now, q))
    ensures forall q :: q != dst && q in clear.overlay ==> q in v.overlay && clear.overlay[q] == v.overlay[q]
    ensures !HasCopy(clear.overlay, dst)
  {
  }

  lemma NothingMoved(provider: Provider, dst: Path)
    ensures forall live, e, folderId :: ProviderMoved(provider, live, Err(e), dst, folderId) == provider
  {
  }

  lemma AnsweredUncleared(v: View, found: View, clear: View, rows: map<Path, MetadataCache.Row>, remote: Remote, src: Path,
                          dst: Path, folderId: string, overwrite: bool, trash: Result<()>, renamed: Result<()>, r: Result<Metadata>,
                          scheduled: Scheduled, ttl: nat)
    requires LookupEffects(v, found, remote, dst) && r.Err?
    requires (Err(r.error), scheduled) == ClearAnswer(v, found, rows, remote, dst, overwrite, trash)
    requires !overwrite ==> clear == found
    ensures MoveAnswered(v, v, found, clear, clear, rows, remote, src, dst, folderId, overwrite, trash, renamed, r, scheduled, ttl)
  {
    hide ClearAnswer, ClearedTo, LearnsFrom, SameBelow, Remembers, UploadMoved, RemoteMoveAnswer;
  }

  lemma AnsweredCleared(v: View, found: View, clear: View, v': View, rows: map<Path, MetadataCache.Row>, remote: Remote, src: Path,
                        dst: Path, folderId: string, overwrite: bool, trash: Result<()>, renamed: Result<()>, r: Result<Metadata>,
                        scheduled: Scheduled, ttl: nat)
    requires src != dst && clear.now == v.now && (!overwrite ==> clear == found)
    requires var (c, left) := ClearAnswer(v, found, rows, remote, dst, overwrite, trash); c.Ok? && left == scheduled
    requires forall q :: q != dst && Live(v.overlay, v.now, q) ==> q in clear.overlay && clear.overlay[q] == v.overlay[q]
    requires forall q :: q != dst && q in clear.overlay ==> q in v.overlay && clear.overlay[q] == v.overlay[q]
    requires LiveUpload(clear.overlay, v.now, src) <==> LiveUpload(v.overlay, v.now, src)
    requires ClearedTo(found, clear, remote, dst, scheduled, ttl)
    requires MoveDone(clear, v', remote, src, dst, folderId, renamed, r)
    ensures MoveAnswered(v, v, found, clear, v', rows, remote, src, dst, folderId, overwrite, trash, renamed, r, scheduled, ttl)
  {
    hide ClearAnswer, ClearedTo, RemoteMoveAnswer, MovedEntry;
    if LiveUpload(v.overlay, v.now, src) {
      assert forall q :: Live(v.overlay, v.now, q) && q != src && q != dst ==> Live(clear.overlay, v.now, q);
    }
  }

  /** The folder lookup that precedes a move leaves what the move does. */
  lemma AnsweredAfterLookup(v: View, seen: View, found: View, clear: View, v': View, rows: map<Path, MetadataCache.Row>,
                            remote: Remote, src: Path, dst: Path, folderId: string, overwrite: bool, trash: Result<()>,
                            renamed: Result<()>, r: Result<Metadata>, scheduled: Scheduled, ttl: nat)
    requires Aged(v, seen) && src != dst
    requires MoveAnswered(seen, seen, found, clear, v', rows, remote, src, dst, folderId, overwrite, trash, renamed, r, scheduled, ttl)
    ensures MoveAnswered(v, seen, found, clear, v', rows, remote, src, dst, folderId, overwrite, trash, renamed, r, scheduled, ttl)
    ensures LiveUpload(seen.overlay, seen.now, src) <==> LiveUpload(v.overlay, v.now, src)
  {
    hide ClearAnswer, ClearedTo, RemoteMoveAnswer, MovedEntry;
    assert forall q :: Live(v.overlay, v.now, q) <==> Live(seen.overlay, v.now, q);
  }

  lemma ShownAfterLookup(v: View, seen: View, remote: Remote, src: Path, dst: Path, scheduled: Scheduled, ttl: nat)
    requires LookupEffects(v, seen, remote, Parent(dst))
    ensures forall moved :: ShownAfterMove(v, src, dst, scheduled, ttl, moved) == ShownAfterMove(seen, src, dst, scheduled, ttl, moved)
  {
    assert forall q :: Live(v.overlay, v.now, q) <==> Live(seen.overlay, v.now, q);
  }

  lemma MovedAfterLookup(v: View, seen: View, found: View, clear: View, v': View, rows: map<Path, MetadataCache.Row>,
                         remote: Remote, src: Path, dst: Path, folderId: string, overwrite: bool, trash: Result<()>,
                         renamed: Result<()>, r: Result<Metadata>, scheduled: Scheduled, ttl: nat)
    requires LookupEffects(v, seen, remote, Parent(dst)) && src != dst && v'.now == v.now
    requires TombstonesAfter(seen.overlay, v'.overlay, dst, scheduled) && HidesAfter(seen.hidden, v'.hidden, v.now, scheduled)
    requires MoveAnswered(seen, seen, found, clear, v', rows, remote, src, dst, folderId, overwrite, trash, renamed, r, scheduled, ttl)
    ensures TombstonesAfter(v.overlay, v'.overlay, dst, scheduled) && HidesAfter(v.hidden, v'.hidden, v.now, scheduled)
    ensures MoveAnswered(v, seen, found, clear, v', rows, remote, src, dst, folderId, overwrite, trash, renamed, r, scheduled, ttl)
    ensures LiveUpload(seen.overlay, seen.now, src) <==> LiveUpload(v.overlay, v.now, src)
    ensures forall moved :: ShownAfterMove(v, src, dst, scheduled, ttl, moved) == ShownAfterMove(seen, src, dst, scheduled, ttl, moved)
  {
    hide *;
    ShownAfterLookup(v, seen, remote, src, dst, scheduled, ttl);
    LookupDeletesNothing(v, seen, remote, Parent(dst), dst);
    TombstonesAlong(v.overlay, seen.overlay, v'.overlay, dst, scheduled);
    HidesThen(v.hidden, seen.hidden, v'.hidden, v.now, scheduled);
    LookupLearns(v, seen, remote, Parent(dst));
    AnsweredAfterLookup(v, seen, found, clear, v', rows, remote, src, dst, folderId, overwrite, trash, renamed, r, scheduled, ttl);
  }

  lemma PrunedTwice(v: View, v1: View, o2: Overlay, h2: map<string, int>)
    requires Aged(v, v1) && Pruned(v1.overlay, o2, v.now) && HiddenPruned(v1.hidden, h2, v.now)
    ensures Pruned(v.overlay, o2, v.now) && HiddenPruned(v.hidden, h2, v.now)
  {
  }

  /** A moved recent upload is known at its destination at once. */
  lemma EntryMoveShows(v: View, v': View, rows: map<Path, MetadataCache.Row>, remote: Remote, src: Path, dst: Path, folderId: string)
    requires LiveUpload(v.overlay, v.now, src) && v'.now == v.now
    requires dst in v'.overlay && v'.overlay[dst] == MovedEntry(v.overlay[src], dst, folderId)
    ensures MetadataAt(v', rows, remote, dst) == Ok(Some(v'.overlay[dst].metadata))
  {
  }

  /** A moved object outside the overlay is known at its destination, unless something live is in front of it. */
  lemma RemoteMoveShows(v: View, v': View, rows: map<Path, MetadataCache.Row>, remote: Remote, src: Path, dst: Path, moved: Item,
                        metadata: Metadata)
    requires v'.overlay == v.overlay && v'.now == v.now && v'.pathToItem == (v.pathToItem - {src})[dst := moved]
    requires MetadataCache.Lookup(rows, v.now, dst) == Some(metadata)
    ensures !Live(v.overlay, v.now, dst) ==> MetadataAt(v', rows, remote, dst) == Ok(Some(metadata))
    ensures LiveTombstone(v.overlay, v.now, dst) ==> MetadataAt(v', rows, remote, dst) == Ok(None)
  {
  }

  /** All that a move of a recent upload does. */
  lemma EntryMoveDone(v: View, v': View, remote: Remote, rows: map<Path, MetadataCache.Row>, rows': map<Path, MetadataCache.Row>,
                      provider: Provider, src: Path, dst: Path, folderId: string, renamed: Result<()>, metadata: Metadata, expiresAt: int)
    requires LiveUpload(v.overlay, v.now, src) && src != dst && v'.now == v.now && v'.hidden == v.hidden
    requires var moved := MovedEntry(v.overlay[src], dst, folderId);
      && v'.overlay == (v.overlay - {src})[dst := moved] && v'.pathToItem == (v.pathToItem - {src})[dst := moved.item]
      && metadata == moved.metadata
    requires rows' == CachePut(MetadataCache.Without(rows, MovedPaths(src, dst)), metadata, expiresAt)
    ensures MoveDone(v, v', remote, src, dst, folderId, renamed, Ok(metadata))
    ensures ProviderMoved(provider, true, Ok(metadata), dst, folderId) == provider
    ensures TombstonesAfter(v.overlay, v'.overlay, dst, Nothing) && HiddenPruned(v.hidden, v'.hidden, v.now)
    ensures rows' == RowsAfterMove(rows, src, dst, Ok(metadata), expiresAt)
    ensures MetadataAt(v', rows', remote, dst) == Ok(ShownAfterMove(v, src, dst, Nothing, 0, metadata))
  {
    hide MovedEntry, UploadMoved, TombstonesAfter, MetadataAt, CachePut, MetadataCache.Without, RemoteMoveResult;
    NoTombstoneMoved(v.overlay, src, dst, folderId);
    EntryMoved(v.overlay, v.pathToItem, v.now, src, dst, folderId);
    EntryMoveShows(v, v', rows', remote, src, dst, folderId);
  }

  /** All that a move of any other object does to memory; `v1` is memory after the slot of `src` was looked at. */
  lemma RemoteMoveAfter(v: View, v1: View, v': View, remote: Remote, rows': map<Path, MetadataCache.Row>, src: Path, dst: Path,
                        folderId: string, renamed: Result<()>, r: Result<Metadata>)
    requires LookupEffects(v, v1, remote, src) && Resolve(v1, remote, src) == Resolve(v, remote, src) && v'.now == v.now
    requires !LiveUpload(v.overlay, v.now, src) && !LiveUpload(v.overlay, v.now, dst)
    requires RemoteMoveAnswer(v1, remote, src, dst, folderId, renamed, r)
    requires Pruned(v1.overlay, v'.overlay, v.now) && HiddenPruned(v1.hidden, v'.hidden, v.now)
    requires r.Ok? && !Live(v'.overlay, v.now, dst) ==> MetadataAt(v', rows', remote, dst) == Ok(Some(r.value))
    requires r.Ok? && LiveTombstone(v'.overlay, v.now, dst) ==> MetadataAt(v', rows', remote, dst) == Ok(None)
    ensures MoveDone(v, v', remote, src, dst, folderId, renamed, r)
    ensures TombstonesAfter(v.overlay, v'.overlay, dst, Nothing) && HiddenPruned(v.hidden, v'.hidden, v.now)
    ensures r.Ok? ==> MetadataAt(v', rows', remote, dst) == Ok(ShownAfterMove(v, src, dst, Nothing, 0, r.value))
    ensures MovedItem(v1, remote, src, dst, folderId) == MovedItem(v, remote, src, dst, folderId)
  {
    hide LookupEffects, Resolve, Aged, TombstonesAfter, Pruned, HiddenPruned, MetadataAt, RemoteMoveResult, MovedItem;
    LookupLearns(v, v1, remote, src);
    SameMoveAnswer(v, v1, remote, src, dst, folderId, renamed);
    TombstonesAged(v, v1, dst);
    PrunedTwice(v, v1, v'.overlay, v'.hidden);
    NoNewTombstone(v.overlay, v'.overlay, v.now, dst);
    LiveStays(v, v'.overlay, dst);
  }

  lemma MovedCopies(o: Overlay, now: int, src: Path, dst: Path, parentId: string, d: Disk, provider: Provider)
    requires src in o && o[src].state == Uploaded && src != dst && !HasCopy(o, dst) && SlotsOk(o)
    ensures var o' := (o - {src})[dst := MovedEntry(o[src], dst, parentId)];
      && SlotsOk(o')
      && (src in CopiesOf(o) <==> HasCopy(o, src)) && dst !in CopiesOf(o)
      && CopiesOf(o') == (if HasCopy(o, src) then (CopiesOf(o) - {src})[dst := CopiesOf(o)[src]] else CopiesOf(o))
      && (Faithful(o, now, d, provider) ==> Faithful(o', now, d, provider))
  {
    MovedSlots(o, src, dst, parentId);
    SlotIsOk(o, src);
    hide SlotsOk, SlotOk, CopiesOf, Faithful, MovedEntry, AccountedSize;
    MovedSize(src, o[src], dst, parentId);
    CopyMoves(o, src, dst, MovedEntry(o[src], dst, parentId));
    MovedFaithful(o, now, src, dst, parentId, d, provider);
  }

  lemma MovedSlots(o: Overlay, src: Path, dst: Path, parentId: string)
    requires src in o && o[src].state == Uploaded && SlotsOk(o)
    ensures SlotsOk((o - {src})[dst := MovedEntry(o[src], dst, parentId)])
  {
    hide WeakETag;
    assert SlotOk(src, o[src]);
  }

  lemma MovedSize(path: Path, e: Entry, dst: Path, parentId: string)
    requires SlotOk(path, e) && e.state == Uploaded
    ensures AccountedSize(MovedEntry(e, dst, parentId)) == AccountedSize(e)
    ensures MovedEntry(e, dst, parentId).localPath == e.localPath
  {
    hide WeakETag;
  }

  lemma CopyMoves(o: Overlay, src: Path, dst: Path, e: Entry)
    requires src in o && src != dst && !HasCopy(o, dst)
    requires e.localPath == o[src].localPath && AccountedSize(e) == AccountedSize(o[src])
    ensures (src in CopiesOf(o) <==> HasCopy(o, src)) && dst !in CopiesOf(o)
    ensures CopiesOf((o - {src})[dst := e])
         == if HasCopy(o, src) then (CopiesOf(o) - {src})[dst := CopiesOf(o)[src]] else CopiesOf(o)
  {
    hide AccountedSize;
    var o' := (o - {src})[dst := e];
    assert forall q :: q != src && q != dst ==> (HasCopy(o', q) <==> HasCopy(o, q));
  }

  lemma MovedFaithful(o: Overlay, now: int, src: Path, dst: Path, parentId: string, d: Disk, provider: Provider)
    requires src in o && o[src].state == Uploaded && src != dst && SlotsOk(o)
    ensures Faithful(o, now, d, provider) ==> Faithful((o - {src})[dst := MovedEntry(o[src], dst, parentId)], now, d, provider)
  {
    hide WeakETag;
    SlotIsOk(o, src);
    MovedSize(src, o[src], dst, parentId);
    if Faithful(o, now, d, provider) {
      assert Live(o, now, src) ==> EntryFaithful(o[src], d, provider);
    }
  }

  /** `delete` as a function of memory and of the provider's answers. */
  function DeleteAnswer(v: View, remote: Remote, path: Path, trash: Result<()>): Result<Scheduled> {
    if Live(v.overlay, v.now, path) then
      var e := v.overlay[path];
      Ok(if e.state == PendingDelete then Nothing
         else if e.remoteId.Some? then TrashObject(e.item) else FindThenTrash(e))
    else
      match Resolve(v, remote, path)
      case Err(e) => Err(e)
      case Ok(None) => Err(NotFound)
      case Ok(Some(item)) =>
        if !item.isFolder then Ok(TrashObject(item)) else if trash.Ok? then Ok(Nothing) else Err(trash.error)
  }

  /** After an attempt to delete `path`: the only new tombstone is the one of the delete, and it is unmarked. */
  ghost predicate TombstonesAfter(o: Overlay, o': Overlay, path: Path, scheduled: Scheduled) {
    forall p :: p in o' && o'[p].state == PendingDelete ==>
      if p == path && !scheduled.Nothing? then
        !o'[p].remoteDeleted && o'[p].remoteId == (if scheduled.TrashObject? then Some(scheduled.item.id) else None)
      else
        p in o && o'[p] == o[p]
  }

  lemma NoNewTombstone(o: Overlay, o': Overlay, now: int, path: Path)
    requires Pruned(o, o', now)
    ensures TombstonesAfter(o, o', path, Nothing)
  {
  }

  lemma TombstonesAlong(o: Overlay, o1: Overlay, o2: Overlay, path: Path, scheduled: Scheduled)
    requires TombstonesAfter(o, o1, path, Nothing) && TombstonesAfter(o1, o2, path, scheduled)
    ensures TombstonesAfter(o, o2, path, scheduled)
  {
  }

  lemma TombstonesThinned(o: Overlay, o1: Overlay, o2: Overlay, path: Path, scheduled: Scheduled)
    requires TombstonesAfter(o, o1, path, scheduled) && TombstonesAfter(o1, o2, path, Nothing)
    ensures TombstonesAfter(o, o2, path, scheduled)
  {
  }

  lemma TombstonesAged(v: View, v': View, path: Path)
    requires Aged(v, v')
    ensures TombstonesAfter(v.overlay, v'.overlay, path, Nothing)
  {
  }

  /** After an accepted delete of `path`: there is a live tombstone exactly when there was one, or the delete left one
      that does not end at once; and no live upload. */
  ghost predicate BuriedAfter(o: Overlay, o': Overlay, now: int, path: Path, scheduled: Scheduled, ttl: nat) {
    && (LiveTombstone(o', now, path) <==> LiveTombstone(o, now, path) || (!scheduled.Nothing? && ttl > 0))
    && !LiveUpload(o', now, path)
  }

  lemma BuriedByTombstone(o: Overlay, o1: Overlay, now: int, path: Path, item: Item, remoteId: Option<string>, scheduled: Scheduled, ttl: nat)
    requires !LiveTombstone(o, now, path) && !scheduled.Nothing?
    ensures BuriedAfter(o, o1[path := Tombstone(path, item, remoteId, now + ttl)], now, path, scheduled, ttl)
  {
  }

  lemma StillBuried(v: View, v': View, path: Path, ttl: nat)
    requires Aged(v, v') && !LiveUpload(v.overlay, v.now, path)
    ensures BuriedAfter(v.overlay, v'.overlay, v.now, path, Nothing, ttl)
  {
  }

  lemma NothingBuried(o: Overlay, o': Overlay, now: int, path: Path, ttl: nat)
    requires !Live(o, now, path) && path !in o'
    ensures BuriedAfter(o, o', now, path, Nothing, ttl)
  {
  }

  lemma BuriedAlong(v: View, v1: View, o2: Overlay, path: Path, scheduled: Scheduled, ttl: nat)
    requires Aged(v, v1) && BuriedAfter(v1.overlay, o2, v.now, path, scheduled, ttl)
    ensures BuriedAfter(v.overlay, o2, v.now, path, scheduled, ttl)
  {
  }

  lemma TombstonePut(o: Overlay, o1: Overlay, path: Path, item: Item, remoteId: Option<string>, expiresAt: int, scheduled: Scheduled)
    requires TombstonesAfter(o, o1, path, Nothing) && !scheduled.Nothing?
    requires remoteId == if scheduled.TrashObject? then Some(scheduled.item.id) else None
    ensures TombstonesAfter(o, o1[path := Tombstone(path, item, remoteId, expiresAt)], path, scheduled)
  {
  }

  /** A tombstone put where there was nothing changes that slot only. */
  lemma Buried(v: View, v': View, path: Path, item: Item, remoteId: Option<string>, expiresAt: int, scheduled: Scheduled)
    requires Aged(v, v') && !scheduled.Nothing?
    requires remoteId == if scheduled.TrashObject? then Some(scheduled.item.id) else None
    ensures var o' := v'.overlay[path := Tombstone(path, item, remoteId, expiresAt)];
      OnlySlotChanged(v.overlay, o', v.now, path) && TombstonesAfter(v.overlay, o', path, scheduled)
  {
    TombstonesAged(v, v', path);
    BareSlotPut(v, v', path, Tombstone(path, item, remoteId, expiresAt));
    TombstonePut(v.overlay, v'.overlay, path, item, remoteId, expiresAt, scheduled);
  }

  lemma NoTombstoneMoved(o: Overlay, src: Path, dst: Path, parentId: string)
    requires src in o && o[src].state == Uploaded
    ensures TombstonesAfter(o, (o - {src})[dst := MovedEntry(o[src], dst, parentId)], dst, Nothing)
  {
  }

  /** A delete of a known object promises to hide it until `expiresAt`; nothing else touches the promises. */
  ghost predicate PromisesAfter(until: map<string, int>, until': map<string, int>, lifted: set<string>, lifted': set<string>,
                                scheduled: Scheduled, expiresAt: int)
  {
    if scheduled.TrashObject? then until' == until[scheduled.item.id := expiresAt] && lifted' == lifted - {scheduled.item.id}
    else until' == until && lifted' == lifted
  }

  /** An attempt to delete hides its object, if it scheduled one; nothing else changes, except that hidings that
      have run out may be forgotten. */
  ghost predicate HidesAfter(h: map<string, int>, h': map<string, int>, now: int, scheduled: Scheduled) {
    && (forall id :: id in h' && !Schedules(scheduled, id) ==> id in h && h'[id] == h[id])
    && (forall id :: Hidden(h, now, id) && !Schedules(scheduled, id) ==> id in h')
  }

  predicate Schedules(scheduled: Scheduled, id: string) {
    scheduled.TrashObject? && scheduled.item.id == id
  }

  lemma NothingHidden(v: View, v': View)
    requires Aged(v, v')
    ensures HidesAfter(v.hidden, v'.hidden, v.now, Nothing)
  {
  }

  lemma LookupDeletesNothing(v: View, v': View, remote: Remote, looked: Path, path: Path)
    requires LookupEffects(v, v', remote, looked)
    ensures TombstonesAfter(v.overlay, v'.overlay, path, Nothing) && HidesAfter(v.hidden, v'.hidden, v.now, Nothing)
  {
    LookupLearns(v, v', remote, looked);
    TombstonesAged(v, v', path);
    NothingHidden(v, v');
  }

  lemma HidesFirst(h: map<string, int>, h1: map<string, int>, h2: map<string, int>, now: int, scheduled: Scheduled)
    requires HidesAfter(h, h1, now, scheduled) && HiddenPruned(h1, h2, now)
    ensures HidesAfter(h, h2, now, scheduled)
  {
  }

  lemma HidesThen(h: map<string, int>, h1: map<string, int>, h2: map<string, int>, now: int, scheduled: Scheduled)
    requires HidesAfter(h, h1, now, Nothing) && HidesAfter(h1, h2, now, scheduled)
    ensures HidesAfter(h, h2, now, scheduled)
  {
    assert forall id :: Hidden(h, now, id) ==> Hidden(h1, now, id);
  }

  lemma NothingPromised(until: map<string, int>, lifted: set<string>, expiresAt: int)
    ensures PromisesAfter(until, until, lifted, lifted, Nothing, expiresAt)
  {
  }

  /** What an attempt to delete left for later. */
  function Left(r: Result<Scheduled>): Scheduled {
    if r.Ok? then r.value else Nothing
  }

  /** How `move` clears its destination: what it answers and what it leaves for later. `v` is memory when it looks
      at the destination, `found` memory after that. */
  function ClearAnswer(v: View, found: View, rows: map<Path, MetadataCache.Row>, remote: Remote, dst: Path, overwrite: bool,
                       trash: Result<()>): (Result<()>, Scheduled)
  {
    match MetadataAt(v, rows, remote, dst)
    case Err(e) => (Err(e), Nothing)
    case Ok(None) => (Ok(()), Nothing)
    case Ok(Some(_)) =>
      if !overwrite then (Err(AlreadyExists), Nothing)
      else
        var deleted := DeleteAnswer(found, remote, dst, trash);
        (if deleted.Err? then Err(deleted.error) else Ok(()), Left(deleted))
  }

  /** The cache when the destination of a move is clear: it was looked at, and perhaps deleted. */
  function RowsAfterClear(v: View, found: View, rows: map<Path, MetadataCache.Row>, remote: Remote, dst: Path, overwrite: bool,
                          trash: Result<()>, ttl: nat, negativeTtl: nat): map<Path, MetadataCache.Row>
  {
    var looked := RowsAfterLook(v, rows, remote, dst, ttl, negativeTtl);
    if MetadataAt(v, rows, remote, dst).Ok? && MetadataAt(v, rows, remote, dst).value.Some? && overwrite
       && DeleteAnswer(found, remote, dst, trash).Ok?
    then MetadataCache.Without(looked, {dst, Parent(dst)})
    else looked
  }

  /** The paths a move makes the cache forget, with their parents. */
  function MovedPaths(src: Path, dst: Path): set<Path> {
    {src, dst, Parent(src), Parent(dst)}
  }

  function RowsAfterMove(rows: map<Path, MetadataCache.Row>, src: Path, dst: Path, r: Result<Metadata>, expiresAt: int):
    map<Path, MetadataCache.Row>
  {
    if r.Ok? then CachePut(MetadataCache.Without(rows, MovedPaths(src, dst)), r.value, expiresAt) else rows
  }

  /** The cache after a move into a folder that is there. */
  function RowsAfterMoveTo(v: View, found: View, rows: map<Path, MetadataCache.Row>, remote: Remote, src: Path, dst: Path,
                           overwrite: bool, trash: Result<()>, r: Result<Metadata>, ttl: nat, negativeTtl: nat):
    map<Path, MetadataCache.Row>
  {
    RowsAfterMove(RowsAfterClear(v, found, rows, remote, dst, overwrite, trash, ttl, negativeTtl), src, dst, r, v.now + ttl)
  }

  lemma NothingRecached(rows: map<Path, MetadataCache.Row>, src: Path, dst: Path, expiresAt: int)
    ensures forall e :: RowsAfterMove(rows, src, dst, Err(e), expiresAt) == rows
  {
  }

  lemma RemoteMoveDone(provider: Provider, rows: map<Path, MetadataCache.Row>, src: Path, dst: Path, folderId: string, item: Item,
                       moved: Item, metadata: Metadata, expiresAt: int)
    requires metadata == ToMetadata(moved, dst) && moved == item.(name := Base(dst), parentId := Some(folderId))
    ensures ProviderMoved(provider, false, Ok(metadata), dst, folderId) == Renamed(provider, item.id, moved.name, folderId)
    ensures RowsAfterMove(rows, src, dst, Ok(metadata), expiresAt)
         == CachePut(MetadataCache.Without(rows, MovedPaths(src, dst)), metadata, expiresAt)
  {
    hide WeakETag, CachePut, MetadataCache.Without, MovedPaths, Renamed;
  }

  /** The item a moved object is remembered with. */
  function MovedItem(v: View, remote: Remote, src: Path, dst: Path, parentId: string): Option<Item> {
    match Resolve(v, remote, src)
    case Ok(Some(item)) => Some(item.(name := Base(dst), parentId := Some(parentId)))
    case _ => None
  }

  lemma SameMoveAnswer(v: View, v1: View, remote: Remote, src: Path, dst: Path, parentId: string, renamed: Result<()>)
    requires Resolve(v1, remote, src) == Resolve(v, remote, src)
    ensures MovedItem(v1, remote, src, dst, parentId) == MovedItem(v, remote, src, dst, parentId)
    ensures RemoteMoveResult(v1, remote, src, dst, parentId, renamed) == RemoteMoveResult(v, remote, src, dst, parentId, renamed)
  {
    hide Resolve, ToMetadata;
  }

  lemma RemoteMoveFails(v: View, remote: Remote, src: Path, dst: Path, parentId: string, renamed: Result<()>)
    ensures Resolve(v, remote, src).Err? ==>
      RemoteMoveResult(v, remote, src, dst, parentId, renamed) == Err(Resolve(v, remote, src).error)
    ensures Resolve(v, remote, src) == Ok(None) ==> RemoteMoveResult(v, remote, src, dst, parentId, renamed) == Err(NotFound)
  {
    hide Resolve, ToMetadata;
  }

  lemma RemoteMoveWorks(v: View, remote: Remote, src: Path, dst: Path, parentId: string, renamed: Result<()>, item: Item, moved: Item)
    requires Resolve(v, remote, src) == Ok(Some(item)) && moved == item.(name := Base(dst), parentId := Some(parentId))
    ensures RemoteMoveResult(v, remote, src, dst, parentId, renamed) ==
      if renamed.Err? then Err(renamed.error) else Ok(ToMetadata(moved, dst))
    ensures MovedItem(v, remote, src, dst, parentId) == Some(moved)
  {
    hide Resolve, ToMetadata;
  }

  /** What a move of an object that is no recent upload answers: what is missing is not found, the provider's failure is
      reported, and otherwise the answer and memory have the same object under its new name and folder. */
  lemma MovesTo(v: View, remote: Remote, src: Path, dst: Path, folderId: string, renamed: Result<()>)
    ensures var r, moved := RemoteMoveResult(v, remote, src, dst, folderId, renamed), MovedItem(v, remote, src, dst, folderId);
      match Resolve(v, remote, src)
      case Err(e) => r == Err(e)
      case Ok(None) => r == Err(NotFound)
      case Ok(Some(item)) =>
        && moved.Some? && moved.value.id == item.id && moved.value.size == item.size && moved.value.isFolder == item.isFolder
        && moved.value.name == Base(dst) && moved.value.parentId == Some(folderId)
        && moved.value.modifiedAt == item.modifiedAt && moved.value.fingerprint == item.fingerprint && moved.value.hints == item.hints
        && (renamed.Err? ==> r == Err(renamed.error))
        && (renamed.Ok? ==> r.Ok? && DescribesItem(r.value, moved.value, dst))
  {
    hide Resolve, ToMetadata;
    if MovedItem(v, remote, src, dst, folderId).Some? {
      MetadataDescribes(MovedItem(v, remote, src, dst, folderId).value, dst);
    }
  }

  predicate FolderAt(v: View, remote: Remote, p: Path) {
    match Resolve(v, remote, p)
    case Ok(Some(item)) => item.isFolder
    case _ => false
  }

  /** After a successful move the old path and the folders of both are found at no time in the cache, and the new path
      for its time and not longer. */
  lemma MoveIsCached(rows: map<Path, MetadataCache.Row>, src: Path, dst: Path, r: Result<Metadata>, expiresAt: int, t: int)
    requires r.Ok? && r.value.path == dst
    ensures var rows' := RowsAfterMove(rows, src, dst, r, expiresAt);
      && MetadataCache.Lookup(rows', t, dst) == (if t <= expiresAt then Some(r.value) else None)
      && forall p :: p in {src, Parent(src), Parent(dst)} && p != dst ==> MetadataCache.Lookup(rows', t, p).None?
  {
    hide MetadataCache.Encode, MetadataCache.Decode;
    var rows1 := MetadataCache.Without(rows, MovedPaths(src, dst));
    if t <= expiresAt {
      MetadataCache.PutIsFound(rows1, r.value, expiresAt, t);
    }
    forall p | p in {src, Parent(src), Parent(dst)} && p != dst
      ensures MetadataCache.Lookup(RowsAfterMove(rows, src, dst, r, expiresAt), t, p).None?
    {
      MetadataCache.InvalidatedIsGone(rows, MovedPaths(src, dst), t, p);
      MetadataCache.PutElsewhere(rows1, r.value, expiresAt, t, p);
    }
  }

  lemma MovedDescribesPath(e: Entry, dst: Path, parentId: string)
    ensures MovedEntry(e, dst, parentId).metadata.path == dst
  {
  }

  /** What a metadata read has seen is no tombstone. */
  lemma SeenIsNoTombstone(v: View, found: View, rows: map<Path, MetadataCache.Row>, remote: Remote, p: Path)
    requires Aged(v, found) && MetadataAt(v, rows, remote, p).Ok? && MetadataAt(v, rows, remote, p).value.Some?
    ensures !LiveTombstone(found.overlay, found.now, p)
  {
    hide Resolve, MetadataCache.Lookup;
  }

  /** What the provider holds after a move: only an object outside the overlay is renamed at once. */
  function ProviderMoved(provider: Provider, live: bool, r: Result<Metadata>, dst: Path, folderId: string): Provider {
    if live || r.Err? then provider else Renamed(provider, r.value.id, Base(dst), folderId)
  }

  lemma EmptyIsFine(now: int, d: Disk, provider: Provider)
    ensures SlotsOk(map[]) && PromisesKept(map[], now, map[], {}) && Faithful(map[], now, d, provider)
  {
  }

  lemma TombstoneKeeps(o: Overlay, path: Path, item: Item, remoteId: Option<string>, expiresAt: int, now: int, d: Disk,
                       provider: Provider)
    requires path !in o && SlotsOk(o)
    ensures var o' := o[path := Tombstone(path, item, remoteId, expiresAt)];
      CopiesOf(o') == CopiesOf(o) && SlotsOk(o') && (Faithful(o, now, d, provider) ==> Faithful(o', now, d, provider))
  {
    hide ToMetadata;
  }

  lemma PromiseKept(h: map<string, int>, now: int, until: map<string, int>, lifted: set<string>, id: string, expiresAt: int)
    requires PromisesKept(h, now, until, lifted)
    ensures PromisesKept(h[id := expiresAt], now, until[id := expiresAt], lifted - {id})
  {
    forall r | Promised(until[id := expiresAt], lifted - {id}, now, r)
      ensures r == id || Promised(until, lifted, now, r)
    {
    }
  }

  /** What a lookup leaves of the overlay. */
  lemma LookupLeaves(v: View, v': View, path: Path)
    requires Aged(v, v')
    ensures Thinned(v.overlay, v'.overlay) && Thinned(v.overlay, v'.overlay - {path})
    ensures forall q :: Live(v.overlay, v.now, q) ==> q in v'.overlay
    ensures path !in v.overlay ==> path !in v'.overlay
  {
  }

  lemma LostEntryStaysFaithful(o: Overlay, now: int, d: Disk, d': Disk, u: nat, provider: Provider, path: Path)
    requires Shrinks(d, d') && CopiesPresent(o, d, u) && CopiesPresent(o - {path}, d', u)
    ensures Faithful(o, now, d, provider) ==> Faithful(o - {path}, now, d', provider)
  {
    if Faithful(o, now, d, provider) {
      ThinnedStaysFaithful(o, o - {path}, now, d, d', u, provider);
    }
  }

  // ------------------------------------------------------------------ the same in slots, rows and times

  /** The slot of `p` is in force. */
  predicate InForce(o: Overlay, now: int, p: Path) {
    p in o && now < o[p].expiresAt
  }

  /** What a metadata read answers: a slot in force decides; without one, a row whose time is not over; and once that
      is over, what the lookup finds. */
  lemma MetadataReadsTo(v: View, rows: map<Path, MetadataCache.Row>, remote: Remote, p: Path)
    ensures InForce(v.overlay, v.now, p) ==>
      MetadataAt(v, rows, remote, p) == Ok(if v.overlay[p].state == Uploaded then Some(v.overlay[p].metadata) else None)
    ensures !InForce(v.overlay, v.now, p) && MetadataCache.Lookup(rows, v.now, p).Some? ==>
      MetadataAt(v, rows, remote, p) == Ok(MetadataCache.Lookup(rows, v.now, p)) && v.now <= rows[p].expiresAt
    ensures !InForce(v.overlay, v.now, p) && (p in rows ==> rows[p].expiresAt < v.now) ==>
      ReadsAsFound(Resolve(v, remote, p), MetadataAt(v, rows, remote, p), p)
  {
    hide Resolve;
    MetadataCache.RowsRunOut(rows, v.now, p);
    if Resolve(v, remote, p).Ok? && Resolve(v, remote, p).value.Some? {
      MetadataDescribes(Resolve(v, remote, p).value.value, p);
    }
  }

  /** `read` says of `p` what the lookup found. */
  ghost predicate ReadsAsFound(found: Result<Option<Item>>, read: Result<Option<Metadata>>, p: Path) {
    match found
    case Err(e) => read == Err(e)
    case Ok(None) => read == Ok(None)
    case Ok(Some(item)) => read.Ok? && read.value.Some? && DescribesItem(read.value.value, item, p)
  }

  /** What a metadata read looked up is found in the cache for its time and not longer, and no other path is touched. */
  lemma LookedUpIsCached(v: View, rows: map<Path, MetadataCache.Row>, remote: Remote, p: Path, ttl: nat, negativeTtl: nat, t: int, q: Path)
    ensures var rows' := RowsAfterLook(v, rows, remote, p, ttl, negativeTtl);
      && (q != p ==> MetadataCache.Lookup(rows', t, q) == MetadataCache.Lookup(rows, t, q))
      && (InForce(v.overlay, v.now, p) ==> rows' == rows)
      && (!InForce(v.overlay, v.now, p) && MetadataCache.Lookup(rows, v.now, p).None? ==>
            match MetadataAt(v, rows, remote, p)
            case Err(_) => rows' == rows
            case Ok(None) => MetadataCache.Lookup(rows', t, p).None?
            case Ok(Some(m)) => MetadataCache.Lookup(rows', t, p) == if t <= v.now + ttl then Some(m) else None)
  {
    hide Resolve, ToMetadata, MetadataCache.Encode, MetadataCache.Decode;
    match Resolve(v, remote, p)
    case Ok(Some(item)) =>
      MetadataAtPath(item, p);
      if t <= v.now + ttl {
        MetadataCache.PutIsFound(rows, ToMetadata(item, p), v.now + ttl, t);
      }
    case _ =>
  }

  /** What a delete answers: nothing is left to do at a tombstone; an upload and any other file leave the trashing of
      exactly their object; a folder is trashed at once, and only if that works. */
  lemma DeletesTo(v: View, remote: Remote, path: Path, trash: Result<()>)
    ensures InForce(v.overlay, v.now, path) ==>
      var e := v.overlay[path];
      DeleteAnswer(v, remote, path, trash) ==
        Ok(if e.state == PendingDelete then Nothing else if e.remoteId.None? then FindThenTrash(e) else TrashObject(e.item))
    ensures !InForce(v.overlay, v.now, path) ==>
      match Resolve(v, remote, path)
      case Err(e) => DeleteAnswer(v, remote, path, trash) == Err(e)
      case Ok(None) => DeleteAnswer(v, remote, path, trash) == Err(NotFound)
      case Ok(Some(item)) =>
        if !item.isFolder then DeleteAnswer(v, remote, path, trash) == Ok(TrashObject(item))
        else if trash.Ok? then DeleteAnswer(v, remote, path, trash) == Ok(Nothing)
        else DeleteAnswer(v, remote, path, trash) == Err(trash.error)
  {
    hide Resolve;
  }

  /** A tombstone hides its path until `expiresAt`, stands for the object `remoteId`, holds no copy and is not yet marked. */
  lemma TombstoneStands(path: Path, item: Item, remoteId: Option<string>, expiresAt: int)
    ensures var e := Tombstone(path, item, remoteId, expiresAt);
      && e.state == PendingDelete && e.item == item && e.localPath.None? && e.remoteId == remoteId
      && e.expiresAt == expiresAt && !e.remoteDeleted && DescribesItem(e.metadata, item, path)
  {
    MetadataDescribes(item, path);
  }

  /** A moved upload is the same upload under another name: same object, copy, size and time. */
  lemma MovedIsSame(e: Entry, dst: Path, parentId: string)
    ensures var e' := MovedEntry(e, dst, parentId);
      && e'.state == e.state && e'.remoteId == e.remoteId && e'.localPath == e.localPath && e'.expiresAt == e.expiresAt
      && e'.item.id == e.item.id && e'.item.size == e.item.size && e'.item.isFolder == e.item.isFolder
      && e'.item.name == Base(dst) && e'.item.parentId == Some(parentId) && e'.parentFolderId == Some(parentId)
      && DescribesItem(e'.metadata, e'.item, dst)
  {
    MetadataDescribes(MovedEntry(e, dst, parentId).item, dst);
  }

  /** What an upload leaves at the provider: the target has the new bytes and name, or a new object does; also when the
      answer is lost, and never when the bytes are refused. Every other object is as it was. */
  lemma UploadReaches(provider: Provider, target: Option<string>, answer: UploadAnswer, file: RemoteFile, id: string)
    ensures var provider' := ProviderAfter(provider, target, answer, file);
      && (answer.Refused? ==> provider' == provider)
      && (!answer.Refused? && target == Some(id) ==> id in provider' && provider'[id] == file)
      && (!answer.Refused? && target == None && id == answer.freshId ==> id in provider' && provider'[id] == file)
      && (target != Some(id) && (answer.Refused? || target.Some? || id != answer.freshId) ==>
            (id in provider' <==> id in provider) && (id in provider ==> provider'[id] == provider[id]))
  {
  }

  /** What the provider says of an accepted upload: the id of the object the bytes went to, if it discloses one. */
  lemma UploadIsNamed(folderId: string, name: string, size: nat, target: Option<string>, answer: UploadAnswer)
    requires answer.Accepted?
    ensures var item := UploadedItem(folderId, name, size, target, answer);
      && item.name == name && item.size == size && !item.isFolder && item.parentId == Some(folderId)
      && item.modifiedAt == answer.modifiedAt && item.fingerprint == answer.fingerprint
      && (answer.disclosed && target.Some? ==> item.id == target.value)
      && (answer.disclosed && target.None? ==> item.id == answer.freshId)
  {
  }

  /** A moved object has its new name and folder at the provider, and its bytes; no other changes. A recent upload is not
      renamed there yet. */
  lemma MoveReaches(provider: Provider, live: bool, r: Result<Metadata>, dst: Path, folderId: string, id: string)
    ensures var provider' := ProviderMoved(provider, live, r, dst, folderId);
      && (live || r.Err? ==> provider' == provider)
      && (id in provider' <==> id in provider)
      && (id in provider ==> provider'[id].bytes == provider[id].bytes)
      && (id in provider && !live && r.Ok? && r.value.id == id ==> provider'[id].name == Base(dst) && provider'[id].folderId == folderId)
      && (id in provider && r.Ok? && r.value.id != id ==> provider'[id] == provider[id])
  {
  }

  /** A list judges the slots of the folder that are in force, and nothing else. */
  lemma ChildrenInForce(v: View, folder: Path, p: Path)
    ensures p in BeforeList(v, folder).children <==> Parent(p) == folder && InForce(v.overlay, v.now, p)
    ensures p in BeforeList(v, folder).children ==> BeforeList(v, folder).children[p] == v.overlay[p]
  {
  }

  /** The tombstone at `p` is done with: its object was trashed, and the listing lacks it. */
  ghost predicate DoneWith(v: View, folder: Path, items: seq<Item>, p: Path) {
    && Parent(p) == folder && InForce(v.overlay, v.now, p) && v.overlay[p].state == PendingDelete && v.overlay[p].remoteDeleted
    && (v.overlay[p].remoteId.Some? ==> forall i :: 0 <= i < |items| ==> items[i].id != v.overlay[p].remoteId.value)
  }

  /** What a list leaves of the slots: those of other folders; of its own, no expired one, the tombstones it is not done
      with, and the uploads, unless their own object is listed with their size. */
  lemma ListLeavesSlots(v: View, v': View, folder: Path, items: seq<Item>, b: Before, order: seq<Path>, output: seq<Metadata>, p: Path)
    requires ListedFrom(v, v', folder, items, b, order, output) && p in v.overlay
    ensures p in v'.overlay ==> v'.overlay[p] == v.overlay[p]
    ensures Parent(p) != folder ==> p in v'.overlay
    ensures Parent(p) == folder && v.overlay[p].expiresAt <= v.now ==> p !in v'.overlay
    ensures Parent(p) == folder && InForce(v.overlay, v.now, p) && v.overlay[p].state == PendingDelete ==>
      (p !in v'.overlay <==> DoneWith(v, folder, items, p))
    ensures Parent(p) == folder && InForce(v.overlay, v.now, p) && v.overlay[p].state == Uploaded && p !in v'.overlay ==>
      ConfirmedAt(b, items, p)
    ensures NamesDistinct(b, items) && ConfirmedAt(b, items, p) ==> p !in v'.overlay
  {
    hide Enumerates, Keyed, NamesDistinct, HiddenAfterList, MemoryAfterList, ListOutput, VisibleAt, Confirms;
    if p in b.children {
      RetiredWhenConfirmed(b, items, p);
      if p !in MergeListing(b, items).children {
        OnlyUploadsRetire(b, items, p);
      }
    }
  }

  lemma OnlyUploadsRetire(b: Before, items: seq<Item>, p: Path)
    requires p in b.children && p !in MergeListing(b, items).children
    ensures b.children[p].state == Uploaded
  {
    PassesKeep(b, items);
    var i: nat :| SettledBy(b, items, p, i);
  }

  /** What a list leaves hidden: what was hidden and still is, but not the objects of tombstones it is done with. */
  lemma ListLeavesHidden(v: View, v': View, folder: Path, items: seq<Item>, b: Before, order: seq<Path>, output: seq<Metadata>, id: string)
    requires ListedFrom(v, v', folder, items, b, order, output)
    requires id in v.hidden && v.now < v.hidden[id]
    ensures id in v'.hidden <==> !exists p :: DoneWith(v, folder, items, p) && v.overlay[p].remoteId == Some(id)
    ensures id in v'.hidden ==> v'.hidden[id] == v.hidden[id]
  {
    hide Enumerates, Keyed, MemoryAfterList, OverlayAfterList, ListOutput, DoneWith, SettledIds;
    DoneWithIds(v, folder, items, id);
  }

  lemma DoneWithIds(v: View, folder: Path, items: seq<Item>, id: string)
    ensures id in SettledIds(BeforeList(v, folder).children, folder, Ids(items)) <==>
      exists p :: DoneWith(v, folder, items, p) && v.overlay[p].remoteId == Some(id)
  {
    var children := BeforeList(v, folder).children;
    forall p ensures p in Settled(children, folder, Ids(items)) <==> DoneWith(v, folder, items, p) {
      ListedOrNot(items, if p in v.overlay && v.overlay[p].remoteId.Some? then v.overlay[p].remoteId.value else "");
    }
    assert id in SettledIds(children, folder, Ids(items)) <==>
      exists p :: p in Settled(children, folder, Ids(items)) && children[p].remoteId == Some(id);
  }

  lemma ListedOrNot(items: seq<Item>, id: string)
    ensures id in Ids(items) <==> exists i :: 0 <= i < |items| && items[i].id == id
  {
  }
}
