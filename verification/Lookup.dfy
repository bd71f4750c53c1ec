/**
 How the store resolves a path, as a function of what it remembers and of what the provider answers.
 */
module Lookup {
  import opened Wrappers
  import opened CloudTypes

  /** What the provider answers while one store operation runs: its root folder and, for each folder id,
      a listing. Nothing ties these answers to each other or to the truth. */
  datatype Remote = Remote(root: Result<Item>, listing: string -> Result<seq<Item>>)

  /** What the store remembers at one moment. */
  datatype View = View(overlay: Overlay, pathToItem: map<Path, Item>, hidden: map<string, int>, now: int)

  /** The remote id `id` is hidden by a delete whose time has not run out. */
  predicate Hidden(h: map<string, int>, now: int, id: string) {
    id in h && now < h[id]
  }

  function LowerChar(c: char): char {
    if 'A' <= c <= 'Z' then (c as int + 32) as char else c
  }

  function Lower(s: string): string {
    seq(|s|, i requires 0 <= i < |s| => LowerChar(s[i]))
  }

  /** A listed child counts for a lookup of `name`: it is not hidden, the overlay has nothing at its path,
      and its name is `name` up to case. */
  predicate Matches(v: View, folder: Path, name: string, child: Item) {
    && !Hidden(v.hidden, v.now, child.id)
    && !Live(v.overlay, v.now, Join(folder, child.name))
    && Lower(child.name) == Lower(name)
  }

  /** The last child that counts. */
  function LastMatch(v: View, folder: Path, name: string, children: seq<Item>): Option<Item>
    decreases |children|
  {
    if children == [] then
      None
    else
      var last := |children| - 1;
      if Matches(v, folder, name, children[last]) then Some(children[last])
      else LastMatch(v, folder, name, children[..last])
  }

  /** `_item_for_path` answers without asking the provider. */
  predicate Known(v: View, p: Path) {
    Live(v.overlay, v.now, p) || (p !in v.overlay && p in v.pathToItem)
  }

  /** `_item_for_path`, apart from what it adds to memory on the way. */
  function Resolve(v: View, remote: Remote, p: Path): Result<Option<Item>>
    decreases |p|
  {
    if Live(v.overlay, v.now, p) then
      Ok(if v.overlay[p].state == PendingDelete then None else Some(v.overlay[p].item))
    else if p !in v.overlay && p in v.pathToItem then
      Ok(Some(v.pathToItem[p]))
    else if p == [] then
      match remote.root
      case Ok(root) => Ok(Some(root))
      case Err(e) => Err(e)
    else
      match Resolve(v, remote, Parent(p))
      case Err(e) => Err(e)
      case Ok(None) => Ok(None)
      case Ok(Some(parent)) =>
        if !parent.isFolder then
          Ok(None)
        else
          match remote.listing(parent.id)
          case Err(e) => Err(e)
          case Ok(children) => Ok(LastMatch(v, Parent(p), Base(p), children))
  }

  /** `p` resolves to the folder with this id. */
  ghost predicate IsFolder(v: View, remote: Remote, p: Path, id: string) {
    match Resolve(v, remote, p)
    case Ok(Some(item)) => item.isFolder && item.id == id
    case _ => false
  }

  /** What the provider lists for the folder `p` resolves to. */
  function FolderItems(v: View, remote: Remote, p: Path): Result<seq<Item>> {
    match Resolve(v, remote, p)
    case Err(e) => Err(e)
    case Ok(None) => Err(NotFound)
    case Ok(Some(folder)) => if folder.isFolder then remote.listing(folder.id) else Err(NotFound)
  }

  /** A folder is listed under its own id; a file and a path where nothing is are not found. */
  lemma OnlyFoldersAreListed(v: View, remote: Remote, p: Path, item: Item)
    ensures Resolve(v, remote, p) == Ok(Some(item)) ==>
      FolderItems(v, remote, p) == if item.isFolder then remote.listing(item.id) else Err(NotFound)
    ensures Resolve(v, remote, p) == Ok(None) ==> FolderItems(v, remote, p) == Err(NotFound)
    ensures Resolve(v, remote, p).Err? ==> FolderItems(v, remote, p) == Err(Resolve(v, remote, p).error)
  {
  }

  /** Expired entries may be gone, everything else is as before. */
  ghost predicate Pruned(o: Overlay, o': Overlay, now: int) {
    && (forall p :: p in o' ==> p in o && o'[p] == o[p])
    && (forall p :: Live(o, now, p) ==> p in o')
  }

  ghost predicate HiddenPruned(h: map<string, int>, h': map<string, int>, now: int) {
    && (forall id :: id in h' ==> id in h && h'[id] == h[id])
    && (forall id :: Hidden(h, now, id) ==> id in h')
  }

  /** Nothing changed at paths longer than `depth`. */
  ghost predicate SameBelow(v: View, v': View, depth: nat) {
    forall p :: |p| > depth ==>
      && (p in v'.overlay <==> p in v.overlay)
      && (p in v'.pathToItem <==> p in v.pathToItem)
      && (p in v.pathToItem ==> v'.pathToItem[p] == v.pathToItem[p])
  }

  /** Some of what had expired may be forgotten; nothing that counts has changed. */
  ghost predicate Aged(v: View, v': View) {
    && v'.now == v.now
    && Pruned(v.overlay, v'.overlay, v.now)
    && HiddenPruned(v.hidden, v'.hidden, v.now)
  }

  /** `item` stands, visible, in what the provider lists for the folder of `q`, under the name of `q`. */
  ghost predicate ListedAt(v: View, remote: Remote, q: Path, item: Item) {
    && q != [] && FolderItems(v, remote, Parent(q)).Ok?
    && item in FolderItems(v, remote, Parent(q)).value
    && item.name == Base(q) && !Hidden(v.hidden, v.now, item.id)
  }

  /** An item memory may hold at `q`: it was there before, it is the root, or it is listed there. */
  ghost predicate Sourced(v: View, remote: Remote, q: Path, item: Item) {
    || (q in v.pathToItem && v.pathToItem[q] == item)
    || (q == [] && remote.root == Ok(item))
    || ListedAt(v, remote, q, item)
  }

  /** Memory of items only shrank. */
  ghost predicate ForgetsOnly(v: View, v': View) {
    forall q :: q in v'.pathToItem ==> q in v.pathToItem && v'.pathToItem[q] == v.pathToItem[q]
  }

  /** Apart from that of `p`, memory of items only shrank. */
  ghost predicate ForgetsElsewhere(v: View, v': View, p: Path) {
    forall q :: q != p && q in v'.pathToItem ==> q in v.pathToItem && v'.pathToItem[q] == v.pathToItem[q]
  }

  /** Apart from that of `p`, every item memory has learned is the root or stands in a listing of its folder. */
  ghost predicate LearnsElsewhere(v: View, v': View, remote: Remote, p: Path) {
    forall q :: q != p && q in v'.pathToItem ==> Sourced(v, remote, q, v'.pathToItem[q])
  }

  /** Every item memory has learned is the root or stands in a listing of its folder. */
  ghost predicate LearnsFrom(v: View, v': View, remote: Remote) {
    forall q :: q in v'.pathToItem ==> Sourced(v, remote, q, v'.pathToItem[q])
  }

  /** Every item memory has learned is a visible one of `children`, below `folder`. */
  ghost predicate LearnsChildren(v: View, v': View, folder: Path, children: seq<Item>) {
    forall q :: q in v'.pathToItem ==>
      || (q in v.pathToItem && v'.pathToItem[q] == v.pathToItem[q])
      || (q != [] && Parent(q) == folder && v'.pathToItem[q] in children && v'.pathToItem[q].name == Base(q)
          && !Hidden(v.hidden, v.now, v'.pathToItem[q].id))
  }

  /** Only with an overlay slot can the remembered item of a path be forgotten. */
  ghost predicate Remembers(v: View, v': View) {
    forall q :: q in v.pathToItem && q !in v.overlay ==> q in v'.pathToItem
  }

  /** What a lookup of `path` may do to memory: forget what has expired, and learn items at the depth of `path`
      or above; what it learns is what the provider lists. */
  ghost predicate LookupEffects(v: View, v': View, remote: Remote, path: Path) {
    && Aged(v, v')
    && SameBelow(v, v', |path|)
    && LearnsFrom(v, v', remote)
    && Remembers(v, v')
    && (Known(v, path) ==> v'.overlay == v.overlay && v'.pathToItem == v.pathToItem)
  }

  /** Dropping the expired slot of `path` with its remembered item. */
  lemma DropExpired(v: View, path: Path)
    requires path in v.overlay && !Live(v.overlay, v.now, path)
    ensures var v' := v.(overlay := v.overlay - {path}, pathToItem := v.pathToItem - {path});
      && Aged(v, v') && SameBelow(v, v', |path|)
      && (forall q :: Known(v', q) <==> Known(v, q))
      && (forall q :: Known(v, q) && q !in v.overlay ==> q in v'.pathToItem && v'.pathToItem[q] == v.pathToItem[q])
  {
  }

  lemma LearnsTwice(v: View, v1: View, v2: View, remote: Remote)
    requires Aged(v, v1) && ForgetsOnly(v, v1) && LearnsFrom(v1, v2, remote)
    requires forall p :: Resolve(v1, remote, p) == Resolve(v, remote, p)
    ensures LearnsFrom(v, v2, remote)
  {
    hide Sourced, Resolve;
    forall q | q in v2.pathToItem ensures Sourced(v, remote, q, v2.pathToItem[q]) {
      SourcedBefore(v, v1, remote, q, v2.pathToItem[q]);
    }
  }

  lemma SourcedBefore(v: View, v1: View, remote: Remote, q: Path, item: Item)
    requires Aged(v, v1) && ForgetsOnly(v, v1) && Sourced(v1, remote, q, item)
    requires Resolve(v1, remote, Parent(q)) == Resolve(v, remote, Parent(q))
    ensures Sourced(v, remote, q, item)
  {
    hide Resolve;
  }

  lemma LearnsThenShrinks(v: View, v1: View, v2: View, remote: Remote)
    requires LearnsFrom(v, v1, remote) && ForgetsOnly(v1, v2)
    ensures LearnsFrom(v, v2, remote)
  {
  }

  lemma LookupLearns(v: View, v': View, remote: Remote, path: Path)
    requires LookupEffects(v, v', remote, path)
    ensures Aged(v, v') && LearnsFrom(v, v', remote)
  {
  }

  lemma LookupPrunes(v: View, v': View, remote: Remote, path: Path)
    requires LookupEffects(v, v', remote, path)
    ensures v'.now == v.now && Pruned(v.overlay, v'.overlay, v.now) && HiddenPruned(v.hidden, v'.hidden, v.now)
  {
  }

  lemma LearnsThenForgets(v: View, v1: View, v2: View, remote: Remote, p: Path)
    requires LearnsFrom(v, v1, remote) && ForgetsElsewhere(v1, v2, p)
    ensures LearnsElsewhere(v, v2, remote, p)
  {
  }

  lemma RemembersTwice(v: View, v1: View, v2: View)
    requires Aged(v, v1) && Remembers(v, v1) && Remembers(v1, v2)
    ensures Remembers(v, v2)
  {
  }

  lemma LearnsListing(v: View, v1: View, v2: View, remote: Remote, folder: Path, parent: Item, children: seq<Item>)
    requires Aged(v, v1) && LearnsFrom(v, v1, remote) && LearnsChildren(v1, v2, folder, children)
    requires Resolve(v, remote, folder) == Ok(Some(parent)) && parent.isFolder && remote.listing(parent.id) == Ok(children)
    ensures LearnsFrom(v, v2, remote)
  {
    hide Sourced, Resolve, ListedAt;
    forall q | q in v2.pathToItem ensures Sourced(v, remote, q, v2.pathToItem[q]) {
      if !(q in v1.pathToItem && v2.pathToItem[q] == v1.pathToItem[q]) {
        ChildIsListed(v, v1, remote, folder, parent, children, q, v2.pathToItem[q]);
      }
    }
  }

  lemma ChildIsListed(v: View, v1: View, remote: Remote, folder: Path, parent: Item, children: seq<Item>, q: Path, item: Item)
    requires Aged(v, v1) && Resolve(v, remote, folder) == Ok(Some(parent)) && parent.isFolder
    requires remote.listing(parent.id) == Ok(children)
    requires q != [] && Parent(q) == folder && item in children && item.name == Base(q) && !Hidden(v1.hidden, v1.now, item.id)
    ensures Sourced(v, remote, q, item)
  {
    hide Resolve;
  }

  lemma LearnsChildrenTwice(v: View, v1: View, v2: View, folder: Path, children: seq<Item>, more: seq<Item>)
    requires Aged(v, v1) && LearnsChildren(v, v1, folder, children) && LearnsChildren(v1, v2, folder, more)
    ensures LearnsChildren(v, v2, folder, children + more)
  {
  }

  lemma OnlyForgotten(v: View, v': View, folder: Path, child: Item)
    ensures ForgetsOnly(v, v') ==> LearnsChildren(v, v', folder, [child])
    ensures v'.pathToItem == v.pathToItem ==> ForgetsOnly(v, v')
  {
  }

  lemma ForgetsTwice(v: View, v1: View, v2: View)
    requires ForgetsOnly(v, v1) && ForgetsOnly(v1, v2)
    ensures ForgetsOnly(v, v2)
  {
  }

  lemma ChildLearned(v: View, v': View, folder: Path, child: Item)
    requires ForgetsOnly(v, v') && !Hidden(v.hidden, v.now, child.id)
    ensures LearnsChildren(v, v'.(pathToItem := v'.pathToItem[Join(folder, child.name) := child]), folder, [child])
  {
  }

  /** Before anything is looked at, memory is as it was. */
  lemma NothingLearned(v: View, folder: Path)
    ensures Aged(v, v) && SameBelow(v, v, |folder| + 1) && LearnsChildren(v, v, folder, []) && Remembers(v, v)
  {
  }

  lemma NothingForgotten(h: map<string, int>, now: int)
    ensures HiddenPruned(h, h, now)
  {
  }

  lemma HiddenAged(v: View, h: map<string, int>, id: string)
    requires h == if id in v.hidden && !Hidden(v.hidden, v.now, id) then v.hidden - {id} else v.hidden
    ensures Aged(v, v.(hidden := h))
    ensures forall depth: nat :: SameBelow(v, v.(hidden := h), depth)
    ensures Remembers(v, v.(hidden := h))
  {
  }

  lemma LearnedAt(v: View, v': View, path: Path, item: Item)
    requires Aged(v, v') && SameBelow(v, v', |path|) && Remembers(v, v')
    ensures Aged(v, v'.(pathToItem := v'.pathToItem[path := item]))
    ensures Remembers(v, v'.(pathToItem := v'.pathToItem[path := item]))
    ensures SameBelow(v, v'.(pathToItem := v'.pathToItem[path := item]), |path|)
  {
  }

  lemma AgedTwice(v: View, v1: View, v2: View)
    requires Aged(v, v1) && Aged(v1, v2)
    ensures Aged(v, v2)
  {
  }

  lemma SameBelowDeeper(v: View, v': View, depth: nat, depth': nat)
    requires SameBelow(v, v', depth) && depth <= depth'
    ensures SameBelow(v, v', depth')
  {
  }

  lemma SameBelowTwice(v: View, v1: View, v2: View, depth: nat, shallower: nat)
    requires SameBelow(v, v1, shallower) && SameBelow(v1, v2, depth) && shallower <= depth
    ensures SameBelow(v, v2, depth)
  {
  }

  /** Forgetting what has expired does not change which children count. */
  lemma {:induction false} AgedLastMatch(v: View, v': View, folder: Path, name: string, children: seq<Item>)
    requires Aged(v, v')
    ensures LastMatch(v', folder, name, children) == LastMatch(v, folder, name, children)
    decreases |children|
  {
    if children != [] {
      AgedLastMatch(v, v', folder, name, children[..|children| - 1]);
    }
  }

  /** When exactly one listed child carries the name and it counts, the lookup finds it. */
  lemma {:induction false} FindsTheOnlyMatch(v: View, folder: Path, name: string, children: seq<Item>, i: nat)
    requires i < |children| && Matches(v, folder, name, children[i])
    requires forall j :: 0 <= j < |children| && Lower(children[j].name) == Lower(name) ==> children[j] == children[i]
    ensures LastMatch(v, folder, name, children) == Some(children[i])
    decreases |children|
  {
    var last := |children| - 1;
    if !Matches(v, folder, name, children[last]) {
      assert i < last;
      FindsTheOnlyMatch(v, folder, name, children[..last], i);
    }
  }

  /** A lookup never finds a hidden item, and never one the overlay covers. */
  lemma {:induction false} FoundIsListed(v: View, folder: Path, name: string, children: seq<Item>)
    requires LastMatch(v, folder, name, children).Some?
    ensures var found := LastMatch(v, folder, name, children).value;
      found in children && Matches(v, folder, name, found)
    decreases |children|
  {
    var last := |children| - 1;
    if !Matches(v, folder, name, children[last]) {
      FoundIsListed(v, folder, name, children[..last]);
    }
  }

  /** Forgetting an expired slot together with its remembered item does not change how its path resolves. */
  lemma {:induction false} ResolveAged(v: View, v': View, remote: Remote, p: Path)
    requires Aged(v, v')
    requires forall q :: Known(v', q) <==> Known(v, q)
    requires forall q :: Known(v, q) && q !in v.overlay ==> q in v'.pathToItem && v'.pathToItem[q] == v.pathToItem[q]
    ensures Resolve(v', remote, p) == Resolve(v, remote, p)
    decreases |p|
  {
    assert Known(v', p) <==> Known(v, p);
    assert Live(v'.overlay, v.now, p) <==> Live(v.overlay, v.now, p);
    if p != [] && !Known(v, p) {
      ResolveAged(v, v', remote, Parent(p));
      match Resolve(v, remote, Parent(p))
      case Ok(Some(parent)) =>
        if parent.isFolder && remote.listing(parent.id).Ok? {
          AgedLastMatch(v, v', Parent(p), Base(p), remote.listing(parent.id).value);
        }
      case _ =>
    }
  }

  lemma LearnsNothing(v: View, v': View, remote: Remote)
    requires ForgetsOnly(v, v')
    ensures LearnsFrom(v, v', remote)
  {
  }

  lemma ForgetsOne(v: View, v': View, p: Path)
    requires v' == v.(pathToItem := v.pathToItem - {p})
    ensures ForgetsOnly(v, v')
  {
  }

  lemma RootLearned(v: View, v': View, remote: Remote)
    requires remote.root.Ok? && v' == v.(pathToItem := v.pathToItem[[] := remote.root.value])
    ensures Aged(v, v') && SameBelow(v, v', 0) && LearnsFrom(v, v', remote) && Remembers(v, v')
  {
  }

  lemma LookedAtNothing(v: View, remote: Remote, path: Path)
    ensures LookupEffects(v, v, remote, path)
  {
  }

  /** Dropping an expired slot with its remembered item changes no answer. */
  lemma DroppedUnseen(v: View, v': View, remote: Remote, path: Path)
    requires path in v.overlay && !Live(v.overlay, v.now, path)
    requires Aged(v, v') && v'.overlay == v.overlay - {path} && v'.pathToItem == v.pathToItem - {path}
    ensures forall p :: Resolve(v', remote, p) == Resolve(v, remote, p)
  {
    DropExpired(v, path);
    forall p ensures Resolve(v', remote, p) == Resolve(v, remote, p) {
      ResolveAged(v, v', remote, p);
    }
  }

  /** `_remote_target_id`: the provider object an upload to `p` replaces, if any. */
  function TargetOf(v: View, remote: Remote, p: Path, overwrite: bool): Result<Option<string>> {
    if LiveUpload(v.overlay, v.now, p) then
      if overwrite then Ok(v.overlay[p].remoteId) else Err(AlreadyExists)
    else
      match Resolve(v, remote, p)
      case Err(e) => Err(e)
      case Ok(None) => Ok(None)
      case Ok(Some(item)) =>
        if item.isFolder then Ok(None) else if overwrite then Ok(Some(item.id)) else Err(AlreadyExists)
  }

  /** The folder an upload goes to and the object it replaces, if any; `seen` is what memory looks like after the
      lookup of the folder. */
  function UploadTarget(v: View, seen: View, remote: Remote, p: Path, overwrite: bool): Result<(string, Option<string>)> {
    match Resolve(v, remote, Parent(p))
    case Err(e) => Err(e)
    case Ok(None) => Err(NotFound)
    case Ok(Some(folder)) =>
      if !folder.isFolder then Err(NotFound)
      else
        match TargetOf(seen, remote, p, overwrite)
        case Err(e) => Err(e)
        case Ok(target) => Ok((folder.id, target))
  }

  /** Nothing the store remembers of `p` points to another object than the file `id`. */
  ghost predicate Tied(v: View, p: Path, id: string) {
    && (p in v.overlay ==> v.overlay[p].state == Uploaded && v.overlay[p].remoteId == Some(id))
    && (p in v.pathToItem ==> v.pathToItem[p].id == id && !v.pathToItem[p].isFolder)
  }

  /** While memory knows a tied path, an overwriting upload goes to its object. */
  lemma KnownIsTarget(v: View, remote: Remote, p: Path, id: string)
    requires Known(v, p) && Tied(v, p, id)
    ensures TargetOf(v, remote, p, true) == Ok(Some(id))
  {
  }

  /** When memory has lost the path, the listing of its folder decides, and it decides for the one object
      listed under that name. */
  lemma ListedIsTarget(v: View, remote: Remote, p: Path, parent: Item, children: seq<Item>, i: nat)
    requires p != [] && !Known(v, p)
    requires Resolve(v, remote, Parent(p)) == Ok(Some(parent)) && parent.isFolder
    requires remote.listing(parent.id) == Ok(children)
    requires i < |children| && Matches(v, Parent(p), Base(p), children[i]) && !children[i].isFolder
    requires forall j :: 0 <= j < |children| && Lower(children[j].name) == Lower(Base(p)) ==> children[j] == children[i]
    ensures TargetOf(v, remote, p, true) == Ok(Some(children[i].id))
  {
    FindsTheOnlyMatch(v, Parent(p), Base(p), children, i);
  }

  /** Looking up a path keeps what memory knows of that path and of all deeper ones. */
  lemma KnownStaysTied(v: View, v': View, remote: Remote, looked: Path, p: Path, id: string)
    requires LookupEffects(v, v', remote, looked) && (|p| > |looked| || p == looked)
    requires Known(v, p) && Tied(v, p, id)
    ensures Known(v', p) && Tied(v', p, id)
  {
  }

  // ------------------------------------------------------------------ the same in names and times

  /** `u` is an ASCII capital and `c` its small letter. */
  predicate CapitalOf(u: char, c: char) {
    'A' <= u <= 'Z' && c as int == u as int + 32
  }

  /** The names differ at most in the case of ASCII letters. */
  predicate SameUpToCase(s: string, t: string) {
    |s| == |t| && forall i :: 0 <= i < |s| ==> s[i] == t[i] || CapitalOf(s[i], t[i]) || CapitalOf(t[i], s[i])
  }

  lemma LowerForgetsCase(s: string, t: string)
    ensures Lower(s) == Lower(t) <==> SameUpToCase(s, t)
  {
    if Lower(s) == Lower(t) {
      assert |Lower(s)| == |s| && |Lower(t)| == |t|;
      forall i | 0 <= i < |s| ensures s[i] == t[i] || CapitalOf(s[i], t[i]) || CapitalOf(t[i], s[i]) {
        assert LowerChar(s[i]) == Lower(s)[i] && LowerChar(t[i]) == Lower(t)[i];
      }
    }
    if SameUpToCase(s, t) {
      assert forall i :: 0 <= i < |s| ==> LowerChar(s[i]) == LowerChar(t[i]);
    }
  }

  /** No delete in force hides the object, and no slot in force is in front of its path. */
  predicate Uncovered(v: View, folder: Path, child: Item) {
    && (child.id in v.hidden ==> v.hidden[child.id] <= v.now)
    && (Join(folder, child.name) in v.overlay ==> v.overlay[Join(folder, child.name)].expiresAt <= v.now)
  }

  /** The listed object `i` is the one a lookup of `name` is to find: uncovered, of that name in any case, and the last
      such one. */
  ghost predicate IsAnswer(v: View, folder: Path, name: string, children: seq<Item>, i: int) {
    && 0 <= i < |children| && Uncovered(v, folder, children[i]) && SameUpToCase(children[i].name, name)
    && forall j :: i < j < |children| && Uncovered(v, folder, children[j]) ==> !SameUpToCase(children[j].name, name)
  }

  lemma UncoveredIsFree(v: View, folder: Path, child: Item)
    ensures Uncovered(v, folder, child) <==> !Hidden(v.hidden, v.now, child.id) && !Live(v.overlay, v.now, Join(folder, child.name))
  {
  }

  lemma CountsWhenUncovered(v: View, folder: Path, name: string, child: Item)
    ensures Matches(v, folder, name, child) <==> Uncovered(v, folder, child) && SameUpToCase(child.name, name)
  {
    LowerForgetsCase(child.name, name);
  }

  /** A lookup in a listing finds exactly that object, and nothing when there is none. */
  lemma {:induction false} FindsTheAnswer(v: View, folder: Path, name: string, children: seq<Item>)
    ensures var found := LastMatch(v, folder, name, children);
      && (found.Some? ==> exists i :: IsAnswer(v, folder, name, children, i) && children[i] == found.value)
      && (found.None? ==> forall i :: 0 <= i < |children| && Uncovered(v, folder, children[i]) ==> !SameUpToCase(children[i].name, name))
    decreases |children|
  {
    hide Uncovered, SameUpToCase, Matches;
    if children != [] {
      var last := |children| - 1;
      CountsWhenUncovered(v, folder, name, children[last]);
      if Matches(v, folder, name, children[last]) {
        assert IsAnswer(v, folder, name, children, last);
      } else {
        FindsTheAnswer(v, folder, name, children[..last]);
        if LastMatch(v, folder, name, children[..last]).Some? {
          var i :| IsAnswer(v, folder, name, children[..last], i) && children[..last][i] == LastMatch(v, folder, name, children).value;
          assert IsAnswer(v, folder, name, children, i);
        }
        assert forall i :: 0 <= i < last ==> children[..last][i] == children[i];
      }
    }
  }

  /** What a lookup answers: a slot in force decides, then memory of a path without a slot, then the listing of the
      folder above. */
  lemma ResolvesTo(v: View, remote: Remote, p: Path)
    ensures p in v.overlay && v.now < v.overlay[p].expiresAt ==>
      Resolve(v, remote, p) == Ok(if v.overlay[p].state == Uploaded then Some(v.overlay[p].item) else None)
    ensures p !in v.overlay && p in v.pathToItem ==> Resolve(v, remote, p) == Ok(Some(v.pathToItem[p]))
    ensures Asked(v, p) && p == [] ==> Resolve(v, remote, p) == match remote.root case Ok(root) => Ok(Some(root)) case Err(e) => Err(e)
    ensures Asked(v, p) && p != [] ==>
      match Resolve(v, remote, Parent(p))
      case Err(e) => Resolve(v, remote, p) == Err(e)
      case Ok(None) => Resolve(v, remote, p) == Ok(None)
      case Ok(Some(folder)) =>
        if !folder.isFolder then Resolve(v, remote, p) == Ok(None)
        else
          match remote.listing(folder.id)
          case Err(e) => Resolve(v, remote, p) == Err(e)
          case Ok(children) => Resolve(v, remote, p) == Ok(LastMatch(v, Parent(p), Base(p), children))
  {
  }

  /** The provider is asked about `p`: no slot in force, and nothing in memory that no slot is in front of. */
  predicate Asked(v: View, p: Path) {
    if p in v.overlay then v.overlay[p].expiresAt <= v.now else p !in v.pathToItem
  }

  /** Where an upload goes, in slots and lookups: only a file, never a folder or a tombstone, is replaced, and only when
      overwriting is allowed. */
  lemma UploadGoesTo(v: View, seen: View, remote: Remote, p: Path, overwrite: bool, folder: Item)
    requires Resolve(v, remote, Parent(p)) == Ok(Some(folder))
    ensures !folder.isFolder ==> UploadTarget(v, seen, remote, p, overwrite) == Err(NotFound)
    ensures folder.isFolder && p in seen.overlay && seen.now < seen.overlay[p].expiresAt ==>
      UploadTarget(v, seen, remote, p, overwrite) ==
        if seen.overlay[p].state == PendingDelete then Ok((folder.id, None))
        else if overwrite then Ok((folder.id, seen.overlay[p].remoteId)) else Err(AlreadyExists)
    ensures folder.isFolder && (p in seen.overlay ==> seen.overlay[p].expiresAt <= seen.now) ==>
      UploadTarget(v, seen, remote, p, overwrite) ==
        match Resolve(seen, remote, p)
        case Err(e) => Err(e)
        case Ok(None) => Ok((folder.id, None))
        case Ok(Some(item)) =>
          if item.isFolder then Ok((folder.id, None)) else if overwrite then Ok((folder.id, Some(item.id))) else Err(AlreadyExists)
  {
    ResolvesTo(seen, remote, p);
  }

  lemma UploadNeedsFolder(v: View, seen: View, remote: Remote, p: Path, overwrite: bool)
    ensures Resolve(v, remote, Parent(p)).Err? ==> UploadTarget(v, seen, remote, p, overwrite) == Err(Resolve(v, remote, Parent(p)).error)
    ensures Resolve(v, remote, Parent(p)) == Ok(None) ==> UploadTarget(v, seen, remote, p, overwrite) == Err(NotFound)
  {
  }

  // ------------------------------------------------------------------ what a lookup remembers

  /** The uncovered objects of a listing at their paths; of several with one name the last. */
  function UncoveredItems(v: View, folder: Path, children: seq<Item>): map<Path, Item>
    decreases |children|
  {
    if children == [] then
      map[]
    else
      var last := children[|children| - 1];
      var before := UncoveredItems(v, folder, children[..|children| - 1]);
      if Uncovered(v, folder, last) then before[Join(folder, last.name) := last] else before
  }

  lemma {:induction false} UncoveredOneMore(v: View, folder: Path, children: seq<Item>, child: Item)
    ensures UncoveredItems(v, folder, children + [child]) ==
      if Uncovered(v, folder, child) then UncoveredItems(v, folder, children)[Join(folder, child.name) := child]
      else UncoveredItems(v, folder, children)
  {
    assert (children + [child])[..|children|] == children;
  }

  /** Memory `pti1` is `pti` with the uncovered objects of the listing. */
  ghost predicate HoldsListing(pti: map<Path, Item>, pti1: map<Path, Item>, v: View, folder: Path, children: seq<Item>) {
    pti1 == pti + UncoveredItems(v, folder, children)
  }

  lemma HoldsNothing(pti: map<Path, Item>, v: View, folder: Path)
    ensures HoldsListing(pti, pti, v, folder, [])
  {
    assert pti + map[] == pti;
  }

  lemma HoldsOneMore(pti: map<Path, Item>, pti1: map<Path, Item>, v: View, v1: View, folder: Path, children: seq<Item>, child: Item)
    requires HoldsListing(pti, pti1, v, folder, children) && Aged(v, v1)
    ensures HoldsListing(pti, if Uncovered(v1, folder, child) then pti1[Join(folder, child.name) := child] else pti1,
                         v, folder, children + [child])
  {
    hide Aged, Uncovered;
    AgedUncovered(v, v1, folder, child);
    UncoveredOneMore(v, folder, children, child);
    if Uncovered(v, folder, child) {
      var u := UncoveredItems(v, folder, children);
      assert (pti + u)[Join(folder, child.name) := child] == pti + u[Join(folder, child.name) := child];
    }
  }

  lemma WhatHoldsMeans(pti: map<Path, Item>, pti1: map<Path, Item>, v: View, folder: Path, children: seq<Item>)
    requires HoldsListing(pti, pti1, v, folder, children)
    ensures pti1 == pti + UncoveredItems(v, folder, children)
  {
  }

  /** Forgetting what has expired uncovers nothing new. */
  lemma AgedUncovered(v: View, v': View, folder: Path, child: Item)
    requires Aged(v, v')
    ensures Uncovered(v', folder, child) <==> Uncovered(v, folder, child)
  {
  }

  lemma {:induction false} AgedUncoveredItems(v: View, v': View, folder: Path, children: seq<Item>)
    requires Aged(v, v')
    ensures UncoveredItems(v', folder, children) == UncoveredItems(v, folder, children)
    decreases |children|
  {
    hide Aged, Uncovered;
    if children != [] {
      AgedUncoveredItems(v, v', folder, children[..|children| - 1]);
      AgedUncovered(v, v', folder, children[|children| - 1]);
    }
  }

  /** When a lookup asked the provider, memory holds what was listed: the root, or every uncovered object of the folder
      above the path. */
  ghost predicate Remembered(v: View, v': View, remote: Remote, p: Path) {
    Asked(v, p) ==>
      && (p == [] && remote.root.Ok? ==> p in v'.pathToItem && v'.pathToItem[p] == remote.root.value)
      && (p != [] && FolderItems(v, remote, Parent(p)).Ok? ==>
            var listed := UncoveredItems(v, Parent(p), FolderItems(v, remote, Parent(p)).value);
            forall q :: q in listed ==> q in v'.pathToItem && v'.pathToItem[q] == listed[q])
  }

  /** Dropping an expired slot asks nobody. */
  lemma NothingAsked(v: View, v': View, remote: Remote, p: Path)
    ensures !Asked(v, p) ==> Remembered(v, v', remote, p)
  {
  }

  lemma RememberedAged(v: View, v1: View, v2: View, remote: Remote, p: Path)
    requires Aged(v, v1) && Remembered(v1, v2, remote, p) && Asked(v1, p)
    requires Resolve(v1, remote, Parent(p)) == Resolve(v, remote, Parent(p))
    ensures Remembered(v, v2, remote, p)
  {
    hide Aged, Resolve, Asked;
    if p != [] && FolderItems(v, remote, Parent(p)).Ok? {
      AgedUncoveredItems(v, v1, Parent(p), FolderItems(v, remote, Parent(p)).value);
    }
  }
}
