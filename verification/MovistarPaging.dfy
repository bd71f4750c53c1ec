/**
 The two paged listings of the Movistar client, merged, filtered by folder and deduplicated
 (src/o2gateway/o2/movistar.py:26-70).
 */
module MovistarPaging {
  import opened Wrappers
  import opened Decimals
  import opened Integers
  import opened Paging

  /** A detailed item: its id and the folder it says it is in. */
  datatype Detail = Detail(id: string, parentId: Option<string>)

  /** A page of the first listing: the candidate ids of each entry. */
  datatype MediaPage = MediaPage(media: seq<seq<string>>, more: bool)

  /** What the provider answers: the two listings by offset, and the details of a list of ids. An entry without an
      id or a name cannot be parsed. */
  datatype Movistar = Movistar(
    media: nat -> MediaPage,
    details: seq<string> -> seq<Option<Detail>>,
    pictures: nat -> seq<Option<Detail>>)

  /** `_items_from_payload`: entries that cannot be parsed are skipped. */
  function Parsed(entries: seq<Option<Detail>>): seq<Detail>
    decreases |entries|
  {
    if entries == [] then []
    else
      var before := Parsed(entries[..|entries| - 1]);
      match entries[|entries| - 1]
      case None => before
      case Some(item) => before + [item]
  }

  /** `_o2_id`: ids made of digits are compared as numbers. */
  datatype O2Id = Number(n: nat) | Name(s: string)

  function O2IdOf(s: string): O2Id {
    if s != "" && AllDigits(s) then Number(Value(s)) else Name(s)
  }

  /** An item that names no folder passes for any. */
  predicate InFolder(d: Detail, folderId: string) {
    d.parentId.Some? && d.parentId.value != "" ==> O2IdOf(d.parentId.value) == O2IdOf(folderId)
  }

  function Ids(items: seq<Detail>): set<string> {
    set i | 0 <= i < |items| :: items[i].id
  }

  // ------------------------------------------------------------------ the loops, as functions

  /** Items taken over: those of other folders and those seen before are skipped. */
  function Take(items: seq<Detail>, folderId: string, output: seq<Detail>): seq<Detail>
    decreases |items|
  {
    if items == [] then
      output
    else
      var before := Take(items[..|items| - 1], folderId, output);
      var item := items[|items| - 1];
      if item.id in Ids(before) || !InFolder(item, folderId) then before else before + [item]
  }

  function Flatten(media: seq<seq<string>>): seq<string> {
    if media == [] then [] else Flatten(media[..|media| - 1]) + media[|media| - 1]
  }

  /** The candidate ids worth asking for. */
  function Wanted(ids: seq<string>, seen: set<string>): seq<string>
    decreases |ids|
  {
    if ids == [] then
      []
    else
      var before := Wanted(ids[..|ids| - 1], seen);
      var id := ids[|ids| - 1];
      if id != "" && id !in seen then before + [id] else before
  }

  function MediaFrom(p: Movistar, folderId: string, k: nat, output: seq<Detail>): seq<Detail>
    requires k <= PAGES
    decreases PAGES - k
  {
    if k == PAGES then
      output
    else
      var page := p.media(k * PAGE_SIZE);
      var ids := Wanted(Flatten(page.media), Ids(output));
      if ids == [] then
        output
      else
        var output' := Take(Parsed(p.details(ids)), folderId, output);
        if !page.more || |page.media| < PAGE_SIZE then output' else MediaFrom(p, folderId, k + 1, output')
  }

  function PicturesFrom(p: Movistar, folderId: string, k: nat, output: seq<Detail>): seq<Detail>
    requires k <= PAGES
    decreases PAGES - k
  {
    if k == PAGES then
      output
    else
      var pictures := Parsed(p.pictures(k * PAGE_SIZE));
      var output' := Take(pictures, folderId, output);
      if |pictures| < PAGE_SIZE then output' else PicturesFrom(p, folderId, k + 1, output')
  }

  // ------------------------------------------------------------------ the loops themselves

  lemma IdsOneMore(items: seq<Detail>, item: Detail)
    ensures Ids(items + [item]) == Ids(items) + {item.id}
  {
    var more := items + [item];
    assert more[|items|].id in Ids(more);
    forall id | id in Ids(items) ensures id in Ids(more) {
      var i :| 0 <= i < |items| && items[i].id == id;
      assert more[i].id in Ids(more);
    }
  }

  method ItemsFromPayload(entries: seq<Option<Detail>>) returns (output: seq<Detail>)
    ensures output == Parsed(entries)
  {
    output := [];
    for i := 0 to |entries|
      invariant output == Parsed(entries[..i])
    {
      assert entries[..i + 1][..i] == entries[..i];
      if entries[i].None? {
        continue;
      }
      output := output + [entries[i].value];
    }
    assert entries[..|entries|] == entries;
  }

  method TakeAll(items: seq<Detail>, folderId: string, output: seq<Detail>, seen: set<string>)
    returns (output': seq<Detail>, seen': set<string>)
    requires seen == Ids(output)
    ensures output' == Take(items, folderId, output) && seen' == Ids(output')
  {
    output', seen' := output, seen;
    for i := 0 to |items|
      invariant output' == Take(items[..i], folderId, output) && seen' == Ids(output')
    {
      assert items[..i + 1][..i] == items[..i];
      var item := items[i];
      if item.id !in seen' && InFolder(item, folderId) {
        IdsOneMore(output', item);
        seen' := seen' + {item.id};
        output' := output' + [item];
      }
    }
    assert items[..|items|] == items;
  }

  /** `_load_files` of the Movistar client. */
  method LoadFiles(p: Movistar, folderId: string) returns (output: seq<Detail>)
    ensures output == PicturesFrom(p, folderId, 0, MediaFrom(p, folderId, 0, []))
    ensures forall i :: 0 <= i < |output| ==> MayBeIn(output[i], folderId)
  {
    var seen;
    output, seen := LoadMedia(p, folderId);
    output := LoadPictures(p, folderId, output, seen);
    OnlyOfTheFolder(p, folderId);
  }

  /** Its first loop. */
  method LoadMedia(p: Movistar, folderId: string) returns (output: seq<Detail>, seen: set<string>)
    ensures output == MediaFrom(p, folderId, 0, []) && seen == Ids(output)
  {
    output, seen := [], {};
    var k := 0;
    while k < PAGES
      invariant k <= PAGES && seen == Ids(output)
      invariant MediaFrom(p, folderId, 0, []) == MediaFrom(p, folderId, k, output)
      decreases PAGES - k
    {
      var page := p.media(k * PAGE_SIZE);
      var ids := Wanted(Flatten(page.media), seen);
      if ids == [] {
        return;
      }
      var details := ItemsFromPayload(p.details(ids));
      output, seen := TakeAll(details, folderId, output, seen);
      if !page.more || |page.media| < PAGE_SIZE {
        return;
      }
      k := k + 1;
    }
  }

  /** Its second loop. */
  method LoadPictures(p: Movistar, folderId: string, media: seq<Detail>, seenMedia: set<string>) returns (output: seq<Detail>)
    requires seenMedia == Ids(media)
    ensures output == PicturesFrom(p, folderId, 0, media)
  {
    output := media;
    var seen := seenMedia;
    var k := 0;
    while k < PAGES
      invariant k <= PAGES && seen == Ids(output)
      invariant PicturesFrom(p, folderId, 0, media) == PicturesFrom(p, folderId, k, output)
      decreases PAGES - k
    {
      var pictures := ItemsFromPayload(p.pictures(k * PAGE_SIZE));
      output, seen := TakeAll(pictures, folderId, output, seen);
      if |pictures| < PAGE_SIZE {
        return;
      }
      k := k + 1;
    }
  }

  // ------------------------------------------------------------------ whatever the provider answers

  ghost predicate Sound(items: seq<Detail>, folderId: string) {
    && (forall i, j :: 0 <= i < j < |items| ==> items[i].id != items[j].id)
    && (forall i :: 0 <= i < |items| ==> InFolder(items[i], folderId))
  }

  lemma {:induction false} TakeSound(items: seq<Detail>, folderId: string, output: seq<Detail>)
    requires Sound(output, folderId)
    ensures Sound(Take(items, folderId, output), folderId)
    decreases |items|
  {
    if items != [] {
      var before := Take(items[..|items| - 1], folderId, output);
      TakeSound(items[..|items| - 1], folderId, output);
      forall i | 0 <= i < |before| ensures before[i].id in Ids(before) {
      }
    }
  }

  lemma {:induction false} MediaSound(p: Movistar, folderId: string, k: nat, output: seq<Detail>)
    requires k <= PAGES && Sound(output, folderId)
    ensures Sound(MediaFrom(p, folderId, k, output), folderId)
    decreases PAGES - k
  {
    if k < PAGES {
      var page := p.media(k * PAGE_SIZE);
      var ids := Wanted(Flatten(page.media), Ids(output));
      var details := Parsed(p.details(ids));
      TakeSound(details, folderId, output);
      MediaSound(p, folderId, k + 1, Take(details, folderId, output));
    }
  }

  /** Each id comes out once, and only for items of the folder, whatever the two listings contain. */
  lemma {:induction false} PicturesSound(p: Movistar, folderId: string, k: nat, output: seq<Detail>)
    requires k <= PAGES && Sound(output, folderId)
    ensures Sound(PicturesFrom(p, folderId, k, output), folderId)
    decreases PAGES - k
  {
    if k < PAGES {
      var pictures := Parsed(p.pictures(k * PAGE_SIZE));
      TakeSound(pictures, folderId, output);
      PicturesSound(p, folderId, k + 1, Take(pictures, folderId, output));
    }
  }

  // ------------------------------------------------------------------ a provider that keeps still

  function Slice<T>(items: seq<T>, k: nat): seq<T> {
    items[Min(k * PAGE_SIZE, |items|)..Min((k + 1) * PAGE_SIZE, |items|)]
  }

  /** The first listing shows the files with these `ids`, page by page, whose details are `files`; the second one shows
      `pictures`. Of both, any entry may be impossible to parse. */
  ghost predicate Serves(p: Movistar, ids: seq<string>, files: seq<Option<Detail>>, pictures: seq<Option<Detail>>) {
    && |ids| == |files| <= PAGES * PAGE_SIZE && |pictures| <= PAGES * PAGE_SIZE
    && (forall i :: 0 <= i < |ids| ==> ids[i] != "")
    && (forall i, j :: 0 <= i < j < |ids| ==> ids[i] != ids[j])
    && (forall i :: 0 <= i < |files| && files[i].Some? ==> files[i].value.id == ids[i])
    && (forall k: nat :: k < PAGES ==> ServesPage(p, ids, files, pictures, k))
  }

  ghost predicate ServesPage(p: Movistar, ids: seq<string>, files: seq<Option<Detail>>, pictures: seq<Option<Detail>>, k: nat) {
    && |p.media(k * PAGE_SIZE).media| == |Slice(ids, k)|
    && Flatten(p.media(k * PAGE_SIZE).media) == Slice(ids, k)
    && p.media(k * PAGE_SIZE).more == ((k + 1) * PAGE_SIZE < |ids|)
    && p.details(Slice(ids, k)) == Slice(files, k)
    && p.pictures(k * PAGE_SIZE) == Slice(pictures, k)
  }

  lemma {:induction false} AllWanted(ids: seq<string>, seen: set<string>)
    requires forall i :: 0 <= i < |ids| ==> ids[i] != "" && ids[i] !in seen
    ensures Wanted(ids, seen) == ids
    decreases |ids|
  {
    if ids != [] {
      AllWanted(ids[..|ids| - 1], seen);
    }
  }

  lemma {:induction false} TakeTwice(a: seq<Detail>, b: seq<Detail>, folderId: string, output: seq<Detail>)
    ensures Take(a + b, folderId, output) == Take(b, folderId, Take(a, folderId, output))
    decreases |b|
  {
    if b == [] {
      assert a + b == a;
    } else {
      assert (a + b)[..|a + b| - 1] == a + b[..|b| - 1];
      TakeTwice(a, b[..|b| - 1], folderId, output);
    }
  }

  function Upto<T>(items: seq<T>, k: nat): seq<T> {
    items[..Min(k * PAGE_SIZE, |items|)]
  }

  lemma UptoNext<T>(items: seq<T>, k: nat)
    ensures Upto(items, k + 1) == Upto(items, k) + Slice(items, k)
    ensures |Slice(items, k)| < PAGE_SIZE || (k + 1) * PAGE_SIZE >= |items| ==> Upto(items, k + 1) == items
    ensures |items| <= k * PAGE_SIZE ==> Upto(items, k) == items && Slice(items, k) == []
  {
  }

  lemma {:induction false} TakenAreThere(items: seq<Detail>, folderId: string, output: seq<Detail>)
    ensures forall id :: id in Ids(Take(items, folderId, output)) ==> id in Ids(output) || id in Ids(items)
    decreases |items|
  {
    if items != [] {
      var last := |items| - 1;
      TakenAreThere(items[..last], folderId, output);
      IdsOneMore(items[..last], items[last]);
      assert items[..last] + [items[last]] == items;
      IdsOneMore(Take(items[..last], folderId, output), items[last]);
    }
  }

  /** What parses of the first files has their ids. */
  lemma {:induction false} ParsedIds(ids: seq<string>, files: seq<Option<Detail>>, n: nat)
    requires n <= |files| == |ids| && forall i :: 0 <= i < |files| && files[i].Some? ==> files[i].value.id == ids[i]
    ensures forall id :: id in Ids(Parsed(files[..n])) ==> id in ids[..n]
    decreases n
  {
    if n > 0 {
      ParsedIds(ids, files, n - 1);
      assert files[..n][..n - 1] == files[..n - 1] && ids[..n] == ids[..n - 1] + [ids[n - 1]];
      if files[n - 1].Some? {
        IdsOneMore(Parsed(files[..n - 1]), files[n - 1].value);
      }
    }
  }

  /** The ids of a page are still unseen: the files before it are others. */
  lemma SliceUnseen(ids: seq<string>, files: seq<Option<Detail>>, folderId: string, k: nat)
    requires |files| == |ids| && forall i, j :: 0 <= i < j < |ids| ==> ids[i] != ids[j]
    requires forall i :: 0 <= i < |files| && files[i].Some? ==> files[i].value.id == ids[i]
    ensures forall i :: 0 <= i < |Slice(ids, k)| ==> Slice(ids, k)[i] !in Ids(Take(Parsed(Upto(files, k)), folderId, []))
  {
    var n := Min(k * PAGE_SIZE, |ids|);
    TakenAreThere(Parsed(Upto(files, k)), folderId, []);
    ParsedIds(ids, files, n);
    forall i | 0 <= i < |Slice(ids, k)| ensures Slice(ids, k)[i] !in ids[..n] {
      assert Slice(ids, k)[i] == ids[n + i];
    }
  }

  /** One page of the first listing. */
  lemma MediaPageTaken(p: Movistar, ids: seq<string>, files: seq<Option<Detail>>, pictures: seq<Option<Detail>>, folderId: string, k: nat)
    requires Serves(p, ids, files, pictures) && k < PAGES
    ensures var output, output' := Take(Parsed(Upto(files, k)), folderId, []), Take(Parsed(Upto(files, k + 1)), folderId, []);
      MediaFrom(p, folderId, k, output) ==
        if Slice(ids, k) == [] then output
        else if (k + 1) * PAGE_SIZE >= |ids| || |Slice(ids, k)| < PAGE_SIZE then output'
        else MediaFrom(p, folderId, k + 1, output')
  {
    hide InFolder;
    SliceUnseen(ids, files, folderId, k);
    assert ServesPage(p, ids, files, pictures, k);
    hide Serves, Slice, Upto;
    var output := Take(Parsed(Upto(files, k)), folderId, []);
    AllOfPageWanted(ids, k, output);
    UptoNext(files, k);
    ParsedConcat(Upto(files, k), Slice(files, k));
    TakeTwice(Parsed(Upto(files, k)), Parsed(Slice(files, k)), folderId, []);
  }

  lemma AllOfPageWanted(ids: seq<string>, k: nat, output: seq<Detail>)
    requires forall i :: 0 <= i < |ids| ==> ids[i] != ""
    requires forall i :: 0 <= i < |Slice(ids, k)| ==> Slice(ids, k)[i] !in Ids(output)
    ensures Wanted(Slice(ids, k), Ids(output)) == Slice(ids, k)
  {
    AllWanted(Slice(ids, k), Ids(output));
  }

  /** From page `k` on, the first listing yields what is left of the folder's files that can be parsed. */
  ghost predicate MediaDone(p: Movistar, files: seq<Option<Detail>>, folderId: string, k: nat)
    requires k <= PAGES
  {
    MediaFrom(p, folderId, k, Take(Parsed(Upto(files, k)), folderId, [])) == Take(Parsed(files), folderId, [])
  }

  lemma MediaStep(p: Movistar, ids: seq<string>, files: seq<Option<Detail>>, pictures: seq<Option<Detail>>, folderId: string, k: nat)
    requires Serves(p, ids, files, pictures) && k < PAGES && MediaDone(p, files, folderId, k + 1)
    ensures MediaDone(p, files, folderId, k)
  {
    assert |ids| == |files|;
    hide Serves, Slice, Upto;
    UptoNext(files, k);
    MediaPageTaken(p, ids, files, pictures, folderId, k);
    EmptySliceIsEnd(ids, k);
    SameLengthSlices(ids, files, k);
  }

  lemma SameLengthSlices<S, T>(a: seq<S>, b: seq<T>, k: nat)
    requires |a| == |b|
    ensures |Slice(a, k)| == |Slice(b, k)|
  {
  }

  lemma {:induction false} MediaComplete(p: Movistar, ids: seq<string>, files: seq<Option<Detail>>, pictures: seq<Option<Detail>>,
                                         folderId: string, k: nat)
    requires Serves(p, ids, files, pictures) && k <= PAGES
    ensures MediaDone(p, files, folderId, k)
    decreases PAGES - k
  {
    hide MediaDone, Serves;
    if k < PAGES {
      MediaComplete(p, ids, files, pictures, folderId, k + 1);
      MediaStep(p, ids, files, pictures, folderId, k);
    } else {
      MediaEnd(p, ids, files, pictures, folderId);
    }
  }

  lemma MediaEnd(p: Movistar, ids: seq<string>, files: seq<Option<Detail>>, pictures: seq<Option<Detail>>, folderId: string)
    requires Serves(p, ids, files, pictures)
    ensures MediaDone(p, files, folderId, PAGES)
  {
    EndOfListing(p, ids, files, pictures);
    hide Serves, Upto;
  }

  lemma EmptySliceIsEnd<T>(items: seq<T>, k: nat)
    ensures Slice(items, k) == [] ==> |items| <= k * PAGE_SIZE
  {
  }

  lemma EndOfListing(p: Movistar, ids: seq<string>, files: seq<Option<Detail>>, pictures: seq<Option<Detail>>)
    requires Serves(p, ids, files, pictures)
    ensures Upto(files, PAGES) == files && Upto(pictures, PAGES) == pictures
  {
  }

  lemma {:induction false} ParsedConcat(a: seq<Option<Detail>>, b: seq<Option<Detail>>)
    ensures Parsed(a + b) == Parsed(a) + Parsed(b)
    decreases |b|
  {
    if b == [] {
      assert a + b == a;
    } else {
      assert (a + b)[..|a + b| - 1] == a + b[..|b| - 1];
      ParsedConcat(a, b[..|b| - 1]);
    }
  }

  /** Where the second listing is read to, from page `k` on: through the first page of which fewer than a whole page of
      items can be parsed. */
  function ReadTo(pictures: seq<Option<Detail>>, k: nat): (cut: nat)
    requires k <= PAGES
    ensures cut <= |pictures|
    decreases PAGES - k
  {
    if k == PAGES then Min(k * PAGE_SIZE, |pictures|)
    else if |Parsed(Slice(pictures, k))| < PAGE_SIZE then Min((k + 1) * PAGE_SIZE, |pictures|)
    else ReadTo(pictures, k + 1)
  }

  /** From page `k` on, the second listing adds what it still reads of the folder's pictures. */
  ghost predicate PicturesDone(p: Movistar, pictures: seq<Option<Detail>>, folderId: string, k: nat, output: seq<Detail>)
    requires k <= PAGES
  {
    PicturesFrom(p, folderId, k, Take(Parsed(Upto(pictures, k)), folderId, output)) ==
      Take(Parsed(pictures[..ReadTo(pictures, k)]), folderId, output)
  }

  lemma PicturesStep(p: Movistar, ids: seq<string>, files: seq<Option<Detail>>, pictures: seq<Option<Detail>>, folderId: string, k: nat, output: seq<Detail>)
    requires Serves(p, ids, files, pictures) && k < PAGES && PicturesDone(p, pictures, folderId, k + 1, output)
    ensures PicturesDone(p, pictures, folderId, k, output)
  {
    hide Slice;
    assert ServesPage(p, ids, files, pictures, k);
    hide ServesPage, Serves;
    UptoNext(pictures, k);
    ParsedConcat(Upto(pictures, k), Slice(pictures, k));
    TakeTwice(Parsed(Upto(pictures, k)), Parsed(Slice(pictures, k)), folderId, output);
    assert Upto(pictures, k + 1) == pictures[..Min((k + 1) * PAGE_SIZE, |pictures|)];
  }

  lemma {:induction false} PicturesRead(p: Movistar, ids: seq<string>, files: seq<Option<Detail>>, pictures: seq<Option<Detail>>, folderId: string,
                                       k: nat, output: seq<Detail>)
    requires Serves(p, ids, files, pictures) && k <= PAGES
    ensures PicturesDone(p, pictures, folderId, k, output)
    decreases PAGES - k
  {
    hide PicturesDone, Serves;
    if k < PAGES {
      PicturesRead(p, ids, files, pictures, folderId, k + 1, output);
      PicturesStep(p, ids, files, pictures, folderId, k, output);
    } else {
      PicturesEnd(p, pictures, folderId, output);
    }
  }

  lemma PicturesEnd(p: Movistar, pictures: seq<Option<Detail>>, folderId: string, output: seq<Detail>)
    ensures PicturesDone(p, pictures, folderId, PAGES, output)
  {
    hide Slice;
    assert Upto(pictures, PAGES) == pictures[..Min(PAGES * PAGE_SIZE, |pictures|)];
  }

  /** `items` has an item of the folder with this id. */
  ghost predicate Listed(items: seq<Detail>, folderId: string, id: string) {
    exists i :: 0 <= i < |items| && items[i].id == id && InFolder(items[i], folderId)
  }

  /** What is taken from a listing: its items of the folder, unless their id was there already. */
  lemma {:induction false} TakeExact(items: seq<Detail>, folderId: string, output: seq<Detail>, id: string)
    ensures id in Ids(Take(items, folderId, output)) <==>
      id in Ids(output) || Listed(items, folderId, id)
    decreases |items|
  {
    if items != [] {
      var last := |items| - 1;
      var before := Take(items[..last], folderId, output);
      TakeExact(items[..last], folderId, output, id);
      IdsOneMore(before, items[last]);
      ListedOneMore(items[..last], items[last], folderId, id);
      assert items[..last] + [items[last]] == items;
    }
  }

  lemma ListedOneMore(items: seq<Detail>, item: Detail, folderId: string, id: string)
    ensures Listed(items + [item], folderId, id) <==>
      Listed(items, folderId, id) || (item.id == id && InFolder(item, folderId))
  {
    var more := items + [item];
    if i :| 0 <= i < |items| && items[i].id == id && InFolder(items[i], folderId) {
      assert more[i] == items[i];
    }
    assert more[|items|] == item;
  }

  /** What comes out for listings that keep still: the folder's files and its pictures that can be parsed, the pictures up
      to where the second listing is read, each id once. */
  lemma LoadsFolder(p: Movistar, ids: seq<string>, files: seq<Option<Detail>>, pictures: seq<Option<Detail>>, folderId: string)
    requires Serves(p, ids, files, pictures)
    ensures var output := PicturesFrom(p, folderId, 0, MediaFrom(p, folderId, 0, []));
      && Sound(output, folderId)
      && forall id :: id in Ids(output) <==>
           Listed(Parsed(files), folderId, id) || Listed(Parsed(pictures[..ReadTo(pictures, 0)]), folderId, id)
  {
    hide Serves, ReadTo;
    assert Upto(files, 0) == [] && Upto(pictures, 0) == [];
    MediaComplete(p, ids, files, pictures, folderId, 0);
    var media, read := Take(Parsed(files), folderId, []), Parsed(pictures[..ReadTo(pictures, 0)]);
    PicturesRead(p, ids, files, pictures, folderId, 0, media);
    MediaSound(p, folderId, 0, []);
    PicturesSound(p, folderId, 0, media);
    forall id ensures id in Ids(Take(read, folderId, media)) <==> Listed(Parsed(files), folderId, id) || Listed(read, folderId, id) {
      TakeExact(Parsed(files), folderId, [], id);
      TakeExact(read, folderId, media, id);
    }
  }

  /** The folder comes out whole. */
  ghost predicate Whole(output: seq<Detail>, files: seq<Option<Detail>>, pictures: seq<Option<Detail>>, folderId: string) {
    forall id :: id in Ids(output) <==> Listed(Parsed(files), folderId, id) || Listed(Parsed(pictures), folderId, id)
  }

  /** Every picture of the folder that comes behind the first short page is also listed before that page's end, or
      among the files. */
  ghost predicate NothingBehind(files: seq<Option<Detail>>, pictures: seq<Option<Detail>>, folderId: string) {
    var cut := ReadTo(pictures, 0);
    forall i :: cut <= i < |pictures| && pictures[i].Some? && InFolder(pictures[i].value, folderId) ==>
      || Listed(Parsed(files), folderId, pictures[i].value.id)
      || Listed(Parsed(pictures[..cut]), folderId, pictures[i].value.id)
  }

  lemma {:induction false} ListedParsed(entries: seq<Option<Detail>>, folderId: string, id: string)
    ensures Listed(Parsed(entries), folderId, id) <==>
      exists i :: 0 <= i < |entries| && entries[i].Some? && entries[i].value.id == id && InFolder(entries[i].value, folderId)
    decreases |entries|
  {
    hide InFolder;
    if entries != [] {
      var last, init := entries[|entries| - 1], entries[..|entries| - 1];
      ListedParsed(init, folderId, id);
      if last.Some? {
        ListedOneMore(Parsed(init), last.value, folderId, id);
      }
      if i :| 0 <= i < |init| && init[i].Some? && init[i].value.id == id && InFolder(init[i].value, folderId) {
        assert entries[i] == init[i];
      }
    }
  }

  /** Main result: for listings that keep still, exactly the folder's items of both come out, each id once, if and only
      if nothing new of the folder comes behind a page that does not parse in full. */
  lemma LoadsWholeFolder(p: Movistar, ids: seq<string>, files: seq<Option<Detail>>, pictures: seq<Option<Detail>>, folderId: string)
    requires Serves(p, ids, files, pictures)
    ensures Sound(PicturesFrom(p, folderId, 0, MediaFrom(p, folderId, 0, [])), folderId)
    ensures Whole(PicturesFrom(p, folderId, 0, MediaFrom(p, folderId, 0, [])), files, pictures, folderId) <==>
            NothingBehind(files, pictures, folderId)
  {
    hide Serves, ReadTo, InFolder, Listed;
    var output, cut := PicturesFrom(p, folderId, 0, MediaFrom(p, folderId, 0, [])), ReadTo(pictures, 0);
    LoadsFolder(p, ids, files, pictures, folderId);
    forall id
      ensures Listed(Parsed(pictures), folderId, id) <==>
        || Listed(Parsed(pictures[..cut]), folderId, id)
        || exists i :: cut <= i < |pictures| && pictures[i].Some? && pictures[i].value.id == id && InFolder(pictures[i].value, folderId)
    {
      ListedBehind(pictures, cut, folderId, id);
    }
    if Whole(output, files, pictures, folderId) {
      forall i | cut <= i < |pictures| && pictures[i].Some? && InFolder(pictures[i].value, folderId)
        ensures Listed(Parsed(files), folderId, pictures[i].value.id) || Listed(Parsed(pictures[..cut]), folderId, pictures[i].value.id)
      {
        assert pictures[i].value.id in Ids(output);
      }
    }
  }

  lemma ListedBehind(pictures: seq<Option<Detail>>, cut: nat, folderId: string, id: string)
    requires cut <= |pictures|
    ensures Listed(Parsed(pictures), folderId, id) <==>
      || Listed(Parsed(pictures[..cut]), folderId, id)
      || exists i :: cut <= i < |pictures| && pictures[i].Some? && pictures[i].value.id == id && InFolder(pictures[i].value, folderId)
  {
    hide InFolder, Listed;
    ListedParsed(pictures, folderId, id);
    ListedParsed(pictures[..cut], folderId, id);
    if i :| 0 <= i < cut && pictures[i].Some? && pictures[i].value.id == id && InFolder(pictures[i].value, folderId) {
      assert pictures[..cut][i] == pictures[i];
    }
  }

  /** When every page before the last parses in full, everything is read. */
  lemma {:induction false} FullPagesReadOn(pictures: seq<Option<Detail>>, k: nat)
    requires |pictures| <= PAGES * PAGE_SIZE && k <= PAGES
    requires forall i :: 0 <= i < |pictures| && (i / PAGE_SIZE + 1) * PAGE_SIZE < |pictures| ==> pictures[i].Some?
    ensures ReadTo(pictures, k) == |pictures|
    decreases PAGES - k
  {
    if k < PAGES {
      if (k + 1) * PAGE_SIZE < |pictures| {
        forall i | 0 <= i < |Slice(pictures, k)| ensures Slice(pictures, k)[i].Some? {
          assert Slice(pictures, k)[i] == pictures[k * PAGE_SIZE + i] && (k * PAGE_SIZE + i) / PAGE_SIZE == k;
        }
        AllParsed(Slice(pictures, k));
        FullPagesReadOn(pictures, k + 1);
      } else if |Parsed(Slice(pictures, k))| >= PAGE_SIZE {
        FullPagesReadOn(pictures, k + 1);
      }
    }
  }

  lemma {:induction false} AllParsed(entries: seq<Option<Detail>>)
    requires forall i :: 0 <= i < |entries| ==> entries[i].Some?
    ensures |Parsed(entries)| == |entries|
    decreases |entries|
  {
    if entries != [] {
      AllParsed(entries[..|entries| - 1]);
    }
  }

  lemma {:induction false} ParsedIsShorter(entries: seq<Option<Detail>>)
    ensures |Parsed(entries)| <= |entries|
    ensures (exists i :: 0 <= i < |entries| && entries[i].None?) ==> |Parsed(entries)| < |entries|
    decreases |entries|
  {
    if entries != [] {
      var init := entries[..|entries| - 1];
      ParsedIsShorter(init);
      assert forall i :: 0 <= i < |init| ==> init[i] == entries[i];
    }
  }

  function PageAt<T>(items: seq<T>, offset: nat): seq<T> {
    items[Min(offset, |items|)..Min(offset + PAGE_SIZE, |items|)]
  }

  lemma PageIsSlice<T>(items: seq<T>, k: nat)
    ensures PageAt(items, k * PAGE_SIZE) == Slice(items, k)
  {
  }

  /** A second listing of more than a page, whose first entry cannot be parsed. */
  function OneUnparsable(): seq<Option<Detail>> {
    [None] + seq(PAGE_SIZE - 1, i => Some(Detail("1", None))) + [Some(Detail("2", None))]
  }

  function Unlucky(): Movistar {
    Movistar((offset: nat) => MediaPage([], false), (ids: seq<string>) => [],
             (offset: nat) => PageAt(OneUnparsable(), offset))
  }

  /** One entry that cannot be parsed hides everything behind its page: picture 2 does not come out. */
  lemma UnparsableEndsListing()
    ensures Serves(Unlucky(), [], [], OneUnparsable())
    ensures Listed(Parsed(OneUnparsable()), "0", "2")
    ensures "2" !in Ids(PicturesFrom(Unlucky(), "0", 0, MediaFrom(Unlucky(), "0", 0, [])))
  {
    var p, pictures := Unlucky(), OneUnparsable();
    UnluckyServes();
    LoadsFolder(p, [], [], pictures, "0");
    assert Slice(pictures, 0) == pictures[..PAGE_SIZE];
    assert pictures[..PAGE_SIZE][0].None?;
    ParsedIsShorter(pictures[..PAGE_SIZE]);
    assert ReadTo(pictures, 0) == PAGE_SIZE;
    ListedParsed(pictures[..PAGE_SIZE], "0", "2");
    ListedParsed(pictures, "0", "2");
    assert pictures[PAGE_SIZE] == Some(Detail("2", None));
  }

  lemma UnluckyServes()
    ensures Serves(Unlucky(), [], [], OneUnparsable())
  {
    hide ServesPage;
    forall k: nat | k < PAGES ensures ServesPage(Unlucky(), [], [], OneUnparsable(), k) {
      UnluckyServesPage(k);
    }
  }

  lemma UnluckyServesPage(k: nat)
    ensures ServesPage(Unlucky(), [], [], OneUnparsable(), k)
  {
    hide OneUnparsable, Slice, PageAt;
    var ids: seq<string>, files: seq<Option<Detail>> := [], [];
    EmptySlice(ids, k);
    EmptySlice(files, k);
    PageIsSlice(OneUnparsable(), k);
  }

  lemma EmptySlice<T>(items: seq<T>, k: nat)
    requires items == []
    ensures Slice(items, k) == []
  {
  }

  // ------------------------------------------------------------------ folders and pages, in ids

  /** Both ids are digits that stand for the same number, or neither is and they are the same text. */
  predicate SameId(a: string, b: string) {
    var m, n := a != "" && AllDigits(a), b != "" && AllDigits(b);
    if m && n then Value(a) == Value(b) else !m && !n && a == b
  }

  /** The item names no folder, or this one. */
  predicate MayBeIn(item: Detail, folderId: string) {
    item.parentId.None? || item.parentId.value == "" || SameId(item.parentId.value, folderId)
  }

  lemma InFolderById(item: Detail, folderId: string)
    ensures InFolder(item, folderId) <==> MayBeIn(item, folderId)
  {
  }

  /** Ids with leading zeros are the same number; ids that are no digits are compared as they are. */
  lemma IdsCompared()
    ensures SameId("007", "7") && !SameId("5", "3") && SameId("x7", "x7") && !SameId("x07", "x7") && !SameId("x7", "7")
  {
    ValueOf007();
    assert 'x' in "x7" && 'x' in "x07" && !IsDigit('x');
    assert Value("5") == 5 && Value("3") == 3 by {
      ValueOfText(5);
      ValueOfText(3);
    }
  }

  lemma ValueOf007()
    ensures AllDigits("007") && AllDigits("7") && Value("007") == 7 && Value("7") == 7
  {
    assert "007"[..2] == "00" && "00"[..1] == "0" && "0"[..0] == "" && "7"[..0] == "";
    assert Value("0") == 0 && Value("00") == 0;
  }

  /** Main result on folders: whatever the two listings contain, every item that comes out names the folder or none. */
  lemma OnlyOfTheFolder(p: Movistar, folderId: string)
    ensures forall i :: var output := PicturesFrom(p, folderId, 0, MediaFrom(p, folderId, 0, []));
      0 <= i < |output| ==> MayBeIn(output[i], folderId)
  {
    MediaSound(p, folderId, 0, []);
    PicturesSound(p, folderId, 0, MediaFrom(p, folderId, 0, []));
    var output := PicturesFrom(p, folderId, 0, MediaFrom(p, folderId, 0, []));
    forall i | 0 <= i < |output| ensures MayBeIn(output[i], folderId) {
      InFolderById(output[i], folderId);
    }
  }

  /** And nothing else is left out: from what a page lists, exactly the items come out that have a new id and name the
      folder or none. */
  lemma TakenById(items: seq<Detail>, folderId: string, output: seq<Detail>, id: string)
    ensures id in Ids(Take(items, folderId, output)) <==>
      id in Ids(output) || exists i :: 0 <= i < |items| && items[i].id == id && MayBeIn(items[i], folderId)
  {
    TakeExact(items, folderId, output, id);
    forall i | 0 <= i < |items| ensures InFolder(items[i], folderId) <==> MayBeIn(items[i], folderId) {
      InFolderById(items[i], folderId);
    }
    hide InFolder, MayBeIn;
  }

  /** Only ids that are not empty and not yet seen are asked for, and all of them. */
  lemma {:induction false} AskedFor(ids: seq<string>, seen: set<string>, id: string)
    ensures id in Wanted(ids, seen) <==> id in ids && id != "" && id !in seen
    decreases |ids|
  {
    if ids != [] {
      AskedFor(ids[..|ids| - 1], seen, id);
      assert ids == ids[..|ids| - 1] + [ids[|ids| - 1]];
    }
  }

  /** The first listing goes on after a page with new ids exactly when the page is full and another one is announced. */
  lemma MediaGoesOn(p: Movistar, folderId: string, k: nat, output: seq<Detail>)
    requires k < PAGES
    ensures var page := p.media(k * PAGE_SIZE);
      var ids := Wanted(Flatten(page.media), Ids(output));
      var output' := Take(Parsed(p.details(ids)), folderId, output);
      MediaFrom(p, folderId, k, output) ==
        if ids == [] then output
        else if page.more && |page.media| >= PAGE_SIZE then MediaFrom(p, folderId, k + 1, output') else output'
  {
  }

  /** The second one goes on exactly when a whole page of items could be parsed. */
  lemma PicturesGoOn(p: Movistar, folderId: string, k: nat, output: seq<Detail>)
    requires k < PAGES
    ensures var pictures := Parsed(p.pictures(k * PAGE_SIZE));
      PicturesFrom(p, folderId, k, output) ==
        if |pictures| >= PAGE_SIZE then PicturesFrom(p, folderId, k + 1, Take(pictures, folderId, output))
        else Take(pictures, folderId, output)
  {
  }

  /** Entries that can be parsed come out as they are, in order, and no others. */
  lemma {:induction false} ParsedAsServed(entries: seq<Option<Detail>>, more: Option<Detail>)
    ensures Parsed([]) == []
    ensures Parsed(entries + [more]) == if more.Some? then Parsed(entries) + [more.value] else Parsed(entries)
  {
    assert (entries + [more])[..|entries|] == entries;
  }
}
