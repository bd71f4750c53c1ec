/**
 The pagination loop of the O2 client (src/o2gateway/o2/api.py:460-507). A file is taken as already parsed:
 its candidate ids in order, its name and size, and whether it looks like a folder.
 */
module Paging {
  import opened Decimals
  import opened Integers
  import opened Strings

  const PAGE_SIZE: nat := 200
  const PAGES: nat := 500

  datatype RawFile = RawFile(ids: seq<string>, name: string, size: nat, looksLikeFolder: bool)

  datatype Page = Page(files: seq<RawFile>, more: bool)

  datatype FileItem = FileItem(id: string, name: string, size: nat)

  function Token(file: RawFile, index: nat): string {
    var joined := JoinWith(',', file.ids);
    if joined != "" then joined else Text(index)
  }

  /** What a page is recognised by. */
  function Signature(files: seq<RawFile>): string {
    JoinWith('|', seq(|files|, i requires 0 <= i < |files| => Token(files[i], i)))
  }

  function KeyOf(file: RawFile): string {
    if file.ids != [] then file.ids[0] else file.name + ":" + Text(file.size)
  }

  function ItemOf(file: RawFile): FileItem {
    FileItem(KeyOf(file), file.name, file.size)
  }

  function Ids(items: seq<FileItem>): set<string> {
    set i | 0 <= i < |items| :: items[i].id
  }

  // ------------------------------------------------------------------ the loop, as a function

  /** One page taken over: folders, nameless files and files seen before are skipped. */
  function AddPage(files: seq<RawFile>, output: seq<FileItem>): seq<FileItem>
    decreases |files|
  {
    if files == [] then
      output
    else
      var before := AddPage(files[..|files| - 1], output);
      var file := files[|files| - 1];
      if file.looksLikeFolder || file.name == "" || KeyOf(file) in Ids(before) then before
      else before + [ItemOf(file)]
  }

  /** The last page has come: it is empty, adds nothing, or is short and announced as the last. */
  predicate IsLast(page: Page, added: nat) {
    page.files == [] || added == 0 || (!page.more && |page.files| < PAGE_SIZE)
  }

  lemma {:induction false} AddPageExtends(files: seq<RawFile>, output: seq<FileItem>)
    ensures output <= AddPage(files, output)
    decreases |files|
  {
    if files != [] {
      AddPageExtends(files[..|files| - 1], output);
    }
  }

  /** From page `k` on, with the output and the page signatures so far. */
  function LoadFrom(pages: nat -> Page, k: nat, output: seq<FileItem>, signatures: set<string>): seq<FileItem>
    requires k <= PAGES
    decreases PAGES - k
  {
    if k == PAGES then
      output
    else
      var page := pages(k * PAGE_SIZE);
      var signature := Signature(page.files);
      if signature in signatures then
        output
      else
        var output' := AddPage(page.files, output);
        if |output'| <= |output| || IsLast(page, |output'| - |output|) then output'
        else LoadFrom(pages, k + 1, output', signatures + {signature})
  }

  // ------------------------------------------------------------------ the loop itself

  method TakePage(files: seq<RawFile>, output: seq<FileItem>, seen: set<string>)
    returns (output': seq<FileItem>, seen': set<string>, added: nat)
    requires seen == Ids(output)
    ensures output' == AddPage(files, output) && seen' == Ids(output') && |output'| == |output| + added
  {
    output', seen', added := output, seen, 0;
    for i := 0 to |files|
      invariant output' == AddPage(files[..i], output)
      invariant seen' == Ids(output')
      invariant |output'| == |output| + added
    {
      assert files[..i + 1][..i] == files[..i];
      var file := files[i];
      if !file.looksLikeFolder && file.name != "" && KeyOf(file) !in seen' {
        IdsOneMore(output', ItemOf(file));
        seen' := seen' + {KeyOf(file)};
        output' := output' + [ItemOf(file)];
        added := added + 1;
      }
    }
    assert files[..|files|] == files;
  }

  lemma IdsOneMore(items: seq<FileItem>, item: FileItem)
    ensures Ids(items + [item]) == Ids(items) + {item.id}
  {
    var more := items + [item];
    assert forall i :: 0 <= i < |items| ==> more[i] == items[i];
    assert more[|items|].id in Ids(more);
    forall id | id in Ids(items) ensures id in Ids(more) {
      var i :| 0 <= i < |items| && items[i].id == id;
      assert more[i].id in Ids(more);
    }
  }

  lemma NoIds()
    ensures Ids([]) == {}
  {
  }

  /** `_load_files` of the O2 client. */
  method LoadFiles(pages: nat -> Page) returns (output: seq<FileItem>)
    ensures output == LoadFrom(pages, 0, [], {})
  {
    hide Signature, Ids;
    output := [];
    NoIds();
    var seen: set<string>, signatures: set<string> := {}, {};
    var k := 0;
    while k < PAGES
      invariant k <= PAGES
      invariant seen == Ids(output)
      invariant LoadFrom(pages, 0, [], {}) == LoadFrom(pages, k, output, signatures)
      decreases PAGES - k
    {
      var page := pages(k * PAGE_SIZE);
      var signature := Signature(page.files);
      if signature in signatures {
        return;
      }
      signatures := signatures + {signature};
      var added;
      output, seen, added := TakePage(page.files, output, seen);
      if page.files == [] || added == 0 || (!page.more && |page.files| < PAGE_SIZE) {
        return;
      }
      k := k + 1;
    }
  }

  // ------------------------------------------------------------------ whatever the provider answers

  ghost predicate Distinct(items: seq<FileItem>) {
    forall i, j :: 0 <= i < j < |items| ==> items[i].id != items[j].id
  }

  lemma {:induction false} AddPageDistinct(files: seq<RawFile>, output: seq<FileItem>)
    requires Distinct(output)
    ensures Distinct(AddPage(files, output))
    decreases |files|
  {
    if files != [] {
      var before := AddPage(files[..|files| - 1], output);
      AddPageDistinct(files[..|files| - 1], output);
      forall i | 0 <= i < |before| ensures before[i].id in Ids(before) {
      }
    }
  }

  /** No file is returned twice, whatever pages the provider serves and however often it repeats them. */
  lemma {:induction false} NoDuplicates(pages: nat -> Page, k: nat, output: seq<FileItem>, signatures: set<string>)
    requires k <= PAGES && Distinct(output)
    ensures Distinct(LoadFrom(pages, k, output, signatures))
    decreases PAGES - k
  {
    if k < PAGES {
      var page := pages(k * PAGE_SIZE);
      AddPageDistinct(page.files, output);
      var output' := AddPage(page.files, output);
      NoDuplicates(pages, k + 1, output', signatures + {Signature(page.files)});
    }
  }

  /** The pages before page `k`, and nothing behind them. */
  function CutAt(pages: nat -> Page, k: nat): nat -> Page {
    (offset: nat) => if offset < k * PAGE_SIZE then pages(offset) else Page([], false)
  }

  /** If page `k` of a listing is page `j` once more, the loop returns what it would have returned if the listing ended
      before page `k`: nothing behind a repeated page comes out, and nothing before it is lost or comes out twice. */
  lemma RepeatedPageEnds(pages: nat -> Page, j: nat, k: nat)
    requires j < k < PAGES && pages(j * PAGE_SIZE).files == pages(k * PAGE_SIZE).files
    ensures LoadFrom(pages, 0, [], {}) == LoadFrom(CutAt(pages, k), 0, [], {})
    ensures Distinct(LoadFrom(pages, 0, [], {}))
  {
    RepeatedFrom(pages, j, k, 0, [], {});
    NoDuplicates(pages, 0, [], {});
  }

  lemma {:induction false} RepeatedFrom(pages: nat -> Page, j: nat, k: nat, i: nat, output: seq<FileItem>, signatures: set<string>)
    requires j < k < PAGES && i <= k && pages(j * PAGE_SIZE).files == pages(k * PAGE_SIZE).files
    requires j < i ==> Signature(pages(j * PAGE_SIZE).files) in signatures
    ensures LoadFrom(pages, i, output, signatures) == LoadFrom(CutAt(pages, k), i, output, signatures)
    decreases k - i
  {
    hide Signature;
    if i < k {
      var page := pages(i * PAGE_SIZE);
      assert CutAt(pages, k)(i * PAGE_SIZE) == page;
      RepeatedFrom(pages, j, k, i + 1, AddPage(page.files, output), signatures + {Signature(page.files)});
    }
  }

  // ------------------------------------------------------------------ a provider that keeps still

  function PageOf(files: seq<RawFile>, offset: nat): Page {
    var from := Min(offset, |files|);
    Page(files[from..Min(offset + PAGE_SIZE, |files|)], offset + PAGE_SIZE < |files|)
  }

  predicate Plain(id: string) {
    id != "" && ',' !in id && '|' !in id
  }

  /** Files as the provider serves them: named, with ids of their own that contain no separator. */
  ghost predicate WellFormed(files: seq<RawFile>) {
    && |files| <= PAGES * PAGE_SIZE
    && (forall i :: 0 <= i < |files| ==>
          files[i].ids != [] && Plain(files[i].ids[0]) && files[i].name != "" && !files[i].looksLikeFolder)
    && (forall i, j :: 0 <= i < j < |files| ==> files[i].ids[0] != files[j].ids[0])
  }

  function Items(files: seq<RawFile>): seq<FileItem> {
    seq(|files|, i requires 0 <= i < |files| => ItemOf(files[i]))
  }

  /** The part of a signature before its first separator. */
  function Head(s: string): string {
    if s == "" || s[0] == ',' || s[0] == '|' then "" else [s[0]] + Head(s[1..])
  }

  lemma {:induction false} HeadOf(id: string, rest: string)
    requires ',' !in id && '|' !in id && (rest == "" || rest[0] == ',' || rest[0] == '|')
    ensures Head(id + rest) == id
  {
    if id == "" {
      assert id + rest == rest;
    } else {
      assert (id + rest)[1..] == id[1..] + rest;
      HeadOf(id[1..], rest);
    }
  }

  /** A page is recognised by its first file. */
  lemma SignatureHead(files: seq<RawFile>)
    requires files != [] && files[0].ids != [] && Plain(files[0].ids[0])
    ensures Head(Signature(files)) == files[0].ids[0] && Signature(files) != ""
  {
    var id := files[0].ids[0];
    var tokens := seq(|files|, i requires 0 <= i < |files| => Token(files[i], i));
    var inner := if |files[0].ids| == 1 then "" else "," + JoinWith(',', files[0].ids[1..]);
    assert JoinWith(',', files[0].ids) == id + inner;
    var outer := if |files| == 1 then "" else "|" + JoinWith('|', tokens[1..]);
    assert tokens[0] == id + inner;
    assert Signature(files) == id + (inner + outer);
    HeadOf(id, inner + outer);
  }

  lemma {:induction false} AddPageTakesAll(files: seq<RawFile>, lo: nat, hi: nat)
    requires WellFormed(files) && lo <= hi <= |files|
    ensures AddPage(files[lo..hi], Items(files[..lo])) == Items(files[..hi])
    decreases hi
  {
    if lo == hi {
      assert files[lo..hi] == [];
    } else {
      AddPageTakesAll(files, lo, hi - 1);
      assert files[lo..hi][..hi - 1 - lo] == files[lo..hi - 1];
      var before := Items(files[..hi - 1]);
      assert KeyOf(files[hi - 1]) !in Ids(before);
      assert Items(files[..hi]) == before + [ItemOf(files[hi - 1])];
    }
  }

  /** The signatures of the pages before page `k`. */
  ghost predicate SignaturesBefore(files: seq<RawFile>, k: nat, signatures: set<string>) {
    forall x :: x in signatures ==>
      exists j: nat :: j < k && j * PAGE_SIZE < |files| && x == Signature(PageOf(files, j * PAGE_SIZE).files)
  }

  lemma FreshSignature(files: seq<RawFile>, k: nat, signatures: set<string>)
    requires WellFormed(files) && SignaturesBefore(files, k, signatures)
    ensures Signature(PageOf(files, k * PAGE_SIZE).files) !in signatures
  {
    var mine := PageOf(files, k * PAGE_SIZE).files;
    if Signature(mine) in signatures {
      var j: nat :| j < k && j * PAGE_SIZE < |files| && Signature(mine) == Signature(PageOf(files, j * PAGE_SIZE).files);
      SignatureHead(PageOf(files, j * PAGE_SIZE).files);
      if mine != [] {
        SignatureHead(mine);
      }
    }
  }

  function Upto(files: seq<RawFile>, k: nat): nat {
    Min(k * PAGE_SIZE, |files|)
  }

  lemma PageIsSlice(files: seq<RawFile>, k: nat)
    ensures Upto(files, k) <= Upto(files, k + 1) <= |files|
    ensures PageOf(files, k * PAGE_SIZE).files == files[Upto(files, k)..Upto(files, k + 1)]
    ensures PageOf(files, k * PAGE_SIZE).more || Upto(files, k + 1) == |files|
    ensures PageOf(files, k * PAGE_SIZE).files == [] ==> Upto(files, k) == |files|
  {
  }

  lemma OneMoreSignature(files: seq<RawFile>, k: nat, signatures: set<string>)
    requires SignaturesBefore(files, k, signatures) && k * PAGE_SIZE < |files|
    ensures SignaturesBefore(files, k + 1, signatures + {Signature(PageOf(files, k * PAGE_SIZE).files)})
  {
  }

  /** One page of a provider that keeps still. */
  lemma LoadsPage(files: seq<RawFile>, pages: nat -> Page, k: nat, signatures: set<string>)
    requires WellFormed(files) && pages(k * PAGE_SIZE) == PageOf(files, k * PAGE_SIZE)
    requires k < PAGES && SignaturesBefore(files, k, signatures)
    ensures var page := PageOf(files, k * PAGE_SIZE);
      var output := Items(files[..Upto(files, k)]);
      var output' := Items(files[..Upto(files, k + 1)]);
      LoadFrom(pages, k, output, signatures) ==
        if |output'| <= |output| || IsLast(page, |output'| - |output|) then output'
        else LoadFrom(pages, k + 1, output', signatures + {Signature(page.files)})
  {
    FreshSignature(files, k, signatures);
    PageIsSlice(files, k);
    AddPageTakesAll(files, Upto(files, k), Upto(files, k + 1));
  }

  lemma {:induction false} LoadsRest(files: seq<RawFile>, pages: nat -> Page, k: nat, signatures: set<string>)
    requires WellFormed(files) && forall offset: nat :: pages(offset) == PageOf(files, offset)
    requires k <= PAGES && SignaturesBefore(files, k, signatures)
    ensures LoadFrom(pages, k, Items(files[..Upto(files, k)]), signatures) == Items(files)
    decreases PAGES - k
  {
    hide PageOf, Signature, SignaturesBefore;
    assert files[..|files|] == files;
    if k < PAGES {
      PageIsSlice(files, k);
      LoadsPage(files, pages, k, signatures);
      if PageOf(files, k * PAGE_SIZE).files != [] {
        OneMoreSignature(files, k, signatures);
        LoadsRest(files, pages, k + 1, signatures + {Signature(PageOf(files, k * PAGE_SIZE).files)});
      }
    }
  }

  /** Main result: every file of a provider that keeps still is returned exactly once, in order. */
  lemma LoadsEverything(files: seq<RawFile>, pages: nat -> Page)
    requires WellFormed(files) && forall offset: nat :: pages(offset) == PageOf(files, offset)
    ensures LoadFrom(pages, 0, [], {}) == Items(files)
    ensures var output := LoadFrom(pages, 0, [], {});
      |output| == |files| && forall i :: 0 <= i < |files| ==>
        output[i].id == files[i].ids[0] && output[i].name == files[i].name && output[i].size == files[i].size
  {
    assert Items(files[..Upto(files, 0)]) == [];
    LoadsRest(files, pages, 0, {});
  }

  // ------------------------------------------------------------------ single pages

  /** `file` is a file the client wants, known by `id`: its first candidate id, or name and size when it has none. */
  predicate IsFile(file: RawFile, id: string) {
    && !file.looksLikeFolder && file.name != ""
    && id == if |file.ids| > 0 then file.ids[0] else file.name + ":" + Text(file.size)
  }

  /** From a page exactly the files with new ids are taken; folders and nameless entries never. */
  lemma {:induction false} PageIsTaken(files: seq<RawFile>, output: seq<FileItem>, id: string)
    ensures id in Ids(AddPage(files, output)) <==> id in Ids(output) || exists i :: 0 <= i < |files| && IsFile(files[i], id)
    decreases |files|
  {
    if files != [] {
      var last := |files| - 1;
      var before := AddPage(files[..last], output);
      PageIsTaken(files[..last], output, id);
      IdsOneMore(before, ItemOf(files[last]));
      if i :| 0 <= i < last && IsFile(files[..last][i], id) {
        assert IsFile(files[i], id);
      }
      if i :| 0 <= i < |files| && IsFile(files[i], id) {
        assert i < last ==> IsFile(files[..last][i], id);
      }
    }
  }

  /** What is taken has id, name and size of such a file. */
  lemma {:induction false} TakenAsServed(files: seq<RawFile>, output: seq<FileItem>, k: nat)
    requires |output| <= k < |AddPage(files, output)|
    ensures var item := AddPage(files, output)[k];
      exists i :: 0 <= i < |files| && IsFile(files[i], item.id) && item.name == files[i].name && item.size == files[i].size
    decreases |files|
  {
    var last := |files| - 1;
    var before := AddPage(files[..last], output);
    if k < |before| {
      TakenAsServed(files[..last], output, k);
      var i :| 0 <= i < last && IsFile(files[..last][i], before[k].id) && before[k].name == files[..last][i].name
        && before[k].size == files[..last][i].size;
      assert files[i] == files[..last][i];
    } else {
      assert IsFile(files[last], AddPage(files, output)[k].id);
    }
  }

  /** A page that adds something is followed by the next one, unless it is both short and announced as the last. */
  lemma PageGoesOn(pages: nat -> Page, k: nat, output: seq<FileItem>, signatures: set<string>)
    requires k < PAGES && Signature(pages(k * PAGE_SIZE).files) !in signatures
    ensures var page := pages(k * PAGE_SIZE);
      var output' := AddPage(page.files, output);
      LoadFrom(pages, k, output, signatures) ==
        if |output'| == |output| || (|page.files| < PAGE_SIZE && !page.more) then output'
        else LoadFrom(pages, k + 1, output', signatures + {Signature(page.files)})
  {
    AddPageExtends(pages(k * PAGE_SIZE).files, output);
  }

  /** Pages are told apart by the ids of their files alone. */
  lemma SignatureOfIds(a: seq<RawFile>, b: seq<RawFile>)
    requires |a| == |b| && forall i :: 0 <= i < |a| ==> a[i].ids == b[i].ids
    ensures Signature(a) == Signature(b)
  {
    assert forall i :: 0 <= i < |a| ==> Token(a[i], i) == Token(b[i], i);
    assert seq(|a|, i requires 0 <= i < |a| => Token(a[i], i)) == seq(|b|, i requires 0 <= i < |b| => Token(b[i], i));
  }
}
