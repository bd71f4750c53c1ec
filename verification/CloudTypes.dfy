/** The values the store works on: paths, provider items, WebDAV metadata, overlay entries. */
module CloudTypes {
  import opened Wrappers
  import opened Decimals

  /** A canonical cloud path as the list of its segments; `[]` is the root. Module CloudPath proves
      that canonical path strings and such lists are in bijection. */
  type Path = seq<string>
  type Bytes = seq<bv8>

  /** A file of the spool directory, named after the uuid in `upload-<uuid>.tmp`. */
  type CopyName = nat

  function Parent(p: Path): (r: Path)
    ensures p == [] ==> r == []
    ensures p != [] ==> |r| == |p| - 1 && r + [Base(p)] == p
  {
    if p == [] then [] else p[..|p| - 1]
  }

  function Base(p: Path): string {
    if p == [] then "" else p[|p| - 1]
  }

  function Join(folder: Path, name: string): (r: Path)
    ensures Parent(r) == folder && Base(r) == name && r != []
  {
    folder + [name]
  }

  /** A provider object. `hints` stands for the four fields that metadata carries along as `raw`. */
  datatype Item = Item(
    id: string,
    name: string,
    parentId: Option<string>,
    isFolder: bool,
    size: nat,
    modifiedAt: Option<int>,
    fingerprint: Option<string>,
    hints: map<string, string>)

  datatype Metadata = Metadata(
    id: string,
    name: string,
    isFolder: bool,
    path: Path,
    size: Option<nat>,
    createdAt: Option<int>,
    modifiedAt: Option<int>,
    contentType: Option<string>,
    etag: Option<string>,
    raw: map<string, string>)

  function ToMetadata(item: Item, path: Path): Metadata {
    Metadata(
      item.id, item.name, item.isFolder, path,
      if item.isFolder then None else Some(item.size),
      None, item.modifiedAt, None,
      Some(if item.fingerprint.Some? && item.fingerprint.value != "" then item.fingerprint.value else WeakETag(item)),
      item.hints)
  }

  function WeakETag(item: Item): string {
    var stamp := if item.modifiedAt.Some? then item.modifiedAt.value else 0;
    "W/\"" + item.id + "-" + Text(item.size) + "-" + (if stamp < 0 then "-" + Text(-stamp) else Text(stamp)) + "\""
  }

  /** `m` says of the object `item`, shown at `path`, what a client may rely on. */
  predicate DescribesItem(m: Metadata, item: Item, path: Path) {
    && m.id == item.id && m.name == item.name && m.path == path
    && m.isFolder == item.isFolder && (m.size.None? <==> item.isFolder) && (m.size.Some? ==> m.size.value == item.size)
    && m.modifiedAt == item.modifiedAt && m.raw == item.hints
    && m.etag.Some? && (item.fingerprint.Some? && item.fingerprint.value != "" ==> m.etag == item.fingerprint)
  }

  lemma MetadataDescribes(item: Item, path: Path)
    ensures DescribesItem(ToMetadata(item, path), item, path)
  {
  }

  function Stamp(item: Item): int {
    if item.modifiedAt.Some? then item.modifiedAt.value else 0
  }

  /** Objects without a fingerprint have the same etag exactly when they agree in id, size and time. */
  lemma ETagsTellApart(a: Item, c: Item, p: Path, q: Path)
    requires (a.fingerprint.Some? ==> a.fingerprint.value == "") && (c.fingerprint.Some? ==> c.fingerprint.value == "")
    ensures ToMetadata(a, p).etag == ToMetadata(c, q).etag <==> a.id == c.id && a.size == c.size && Stamp(a) == Stamp(c)
  {
    if WeakETag(a) == WeakETag(c) {
      var x, y := a.id + "-" + Text(a.size), c.id + "-" + Text(c.size);
      TagParts(a);
      TagParts(c);
      hide WeakETag;
      InsideQuotes(x + "-" + SignedText(Stamp(a)), y + "-" + SignedText(Stamp(c)));
      EndsInDigit(a.id, a.size);
      EndsInDigit(c.id, c.size);
      SignedSuffix(x, y, Stamp(a), Stamp(c));
      DigitsSuffix(a.id, c.id, Text(a.size), Text(c.size));
      ValueOfText(a.size);
      ValueOfText(c.size);
    }
  }

  function SignedText(n: int): string {
    if n < 0 then "-" + Text(-n) else Text(n)
  }

  lemma TagParts(item: Item)
    ensures WeakETag(item) == "W/\"" + (item.id + "-" + Text(item.size) + "-" + SignedText(Stamp(item))) + "\""
  {
  }

  lemma InsideQuotes(s: string, t: string)
    requires "W/\"" + s + "\"" == "W/\"" + t + "\""
    ensures s == t
  {
    var (u, v) := ("W/\"" + s + "\"", "W/\"" + t + "\"");
    assert u[3..|u| - 1] == s && v[3..|v| - 1] == t;
  }

  lemma EndsInDigit(id: string, size: nat)
    ensures var x := id + "-" + Text(size); x != "" && IsDigit(x[|x| - 1])
  {
    assert Text(size)[|Text(size)| - 1] in Text(size);
  }

  /** The last hyphen of `s` is at `i`. */
  predicate HyphenLast(s: string, i: nat) {
    i < |s| && s[i] == '-' && forall k :: i < k < |s| ==> s[k] != '-'
  }

  lemma HyphenBeforeDigits(x: string, d: string)
    requires AllDigits(d)
    ensures var s := x + "-" + d; HyphenLast(s, |x|) && s[..|x|] == x && s[|x| + 1..] == d
  {
    var s := x + "-" + d;
    forall k | |x| < k < |s| ensures s[k] != '-' {
      assert s[k] == d[k - |x| - 1] && d[k - |x| - 1] in d;
    }
  }

  lemma DigitsSuffix(x: string, y: string, d: string, e: string)
    requires AllDigits(d) && AllDigits(e) && x + "-" + d == y + "-" + e
    ensures x == y && d == e
  {
    HyphenBeforeDigits(x, d);
    HyphenBeforeDigits(y, e);
    var s := x + "-" + d;
    SameHyphen(s, |x|, |y|);
  }

  lemma SameHyphen(s: string, i: nat, j: nat)
    requires HyphenLast(s, i) && HyphenLast(s, j)
    ensures i == j
  {
  }

  /** What comes before the sign. */
  function Unsigned(x: string, n: int): string {
    if n < 0 then x + "-" else x
  }

  lemma SignMoved(x: string, n: int)
    ensures x + "-" + SignedText(n) == Unsigned(x, n) + "-" + Text(if n < 0 then -n else n)
  {
    if n < 0 {
      assert x + "-" + ("-" + Text(-n)) == x + "-" + "-" + Text(-n);
    }
  }

  lemma SignedSuffix(x: string, y: string, m: int, n: int)
    requires x != "" && IsDigit(x[|x| - 1]) && y != "" && IsDigit(y[|y| - 1])
    requires x + "-" + SignedText(m) == y + "-" + SignedText(n)
    ensures x == y && m == n
  {
    var a, c := if m < 0 then -m else m, if n < 0 then -n else n;
    SignMoved(x, m);
    SignMoved(y, n);
    DigitsSuffix(Unsigned(x, m), Unsigned(y, n), Text(a), Text(c));
    ValueOfText(a);
    ValueOfText(c);
    SameSign(x, y, m, n);
  }

  lemma SameSign(x: string, y: string, m: int, n: int)
    requires x != "" && IsDigit(x[|x| - 1]) && y != "" && IsDigit(y[|y| - 1]) && Unsigned(x, m) == Unsigned(y, n)
    ensures x == y && (m < 0 <==> n < 0)
  {
    var u, v := Unsigned(x, m), Unsigned(y, n);
    assert u[|u| - 1] == (if m < 0 then '-' else x[|x| - 1]);
    assert v[|v| - 1] == (if n < 0 then '-' else y[|y| - 1]);
    assert m < 0 ==> u[..|u| - 1] == x;
    assert n < 0 ==> v[..|v| - 1] == y;
  }

  datatype EntryState = Uploaded | PendingDelete

  datatype Entry = Entry(
    state: EntryState,
    item: Item,
    metadata: Metadata,
    localPath: Option<CopyName>,
    remoteId: Option<string>,
    parentFolderId: Option<string>,
    expiresAt: int,
    remoteDeleted: bool)

  type Overlay = map<Path, Entry>

  /** `entry.metadata.size or 0` */
  function AccountedSize(e: Entry): nat {
    if e.metadata.size.Some? then e.metadata.size.value else 0
  }

  predicate HasCopy(o: Overlay, p: Path) {
    p in o && o[p].localPath.Some?
  }

  /** The slot of `p` holds an entry that has not expired. */
  predicate Live(o: Overlay, now: int, p: Path) {
    p in o && now < o[p].expiresAt
  }

  predicate LiveUpload(o: Overlay, now: int, p: Path) {
    Live(o, now, p) && o[p].state == Uploaded
  }

  predicate LiveTombstone(o: Overlay, now: int, p: Path) {
    Live(o, now, p) && o[p].state == PendingDelete
  }
}
