/**
 What the provider holds, and when the local copies can stand in for it.
 */
module Contents {
  import opened Wrappers
  import opened CloudTypes
  import opened ByteRanges
  import opened Spool
  import opened Eviction

  datatype RemoteFile = RemoteFile(folderId: string, name: string, bytes: Bytes)

  type Provider = map<string, RemoteFile>

  /** An upload with a known id is what the provider holds under that id, and so is its copy. */
  ghost predicate EntryFaithful(e: Entry, d: Disk, provider: Provider) {
    e.state == Uploaded && e.remoteId.Some? ==>
      && e.remoteId.value in provider
      && var bytes := provider[e.remoteId.value].bytes;
         && |bytes| == AccountedSize(e)
         && (e.localPath.Some? ==> e.localPath.value in d && d[e.localPath.value] == bytes)
  }

  /** Every live upload is true to the provider. */
  ghost predicate Faithful(o: Overlay, now: int, d: Disk, provider: Provider) {
    forall p :: Live(o, now, p) ==> EntryFaithful(o[p], d, provider)
  }

  lemma TimeKeepsFaithful(o: Overlay, now: int, later: int, d: Disk, provider: Provider)
    requires Faithful(o, now, d, provider) && now <= later
    ensures Faithful(o, later, d, provider)
  {
    assert forall p :: Live(o, later, p) ==> Live(o, now, p);
  }

  /** Entries only went, or lost their copy. */
  ghost predicate Thinned(o: Overlay, o': Overlay) {
    forall p :: p in o' ==> p in o && (o'[p] == o[p] || o'[p] == o[p].(localPath := None))
  }

  /** Of the files whose names were drawn before `u`, none is new and none changed. */
  ghost predicate OldFilesKept(d: Disk, d': Disk, u: nat) {
    forall n :: n in d' && n < u ==> n in d && d'[n] == d[n]
  }

  /** The copies the overlay holds are on disk and were drawn before `u`. */
  ghost predicate CopiesPresent(o: Overlay, d: Disk, u: nat) {
    forall p :: HasCopy(o, p) ==> o[p].localPath.value in d && o[p].localPath.value < u
  }

  /** Dropping entries, evicting copies and adding files keeps the overlay faithful. */
  lemma ThinnedStaysFaithful(o: Overlay, o': Overlay, now: int, d: Disk, d': Disk, u: nat, provider: Provider)
    requires Faithful(o, now, d, provider) && Thinned(o, o')
    requires CopiesPresent(o, d, u) && OldFilesKept(d, d', u)
    requires forall p :: HasCopy(o', p) ==> o'[p].localPath.value in d'
    ensures Faithful(o', now, d', provider)
  {
    forall p | Live(o', now, p) ensures EntryFaithful(o'[p], d', provider) {
      assert Live(o, now, p) && EntryFaithful(o[p], d, provider);
      assert HasCopy(o', p) ==> HasCopy(o, p);
    }
  }

  function KeptCopies(o: Overlay): set<Path> {
    set p | p in o && HasCopy(o, p)
  }

  /** The live uploads other than that of `skip` which stand for the object `id` describe `bytes`: they have
      their size, and the copies that are `kept` hold them. */
  ghost predicate Spares(o: Overlay, now: int, d: Disk, skip: Option<Path>, id: string, bytes: Bytes, kept: set<Path>) {
    forall q :: Live(o, now, q) && Some(q) != skip && o[q].state == Uploaded && o[q].remoteId == Some(id) ==>
      && AccountedSize(o[q]) == |bytes|
      && (q in kept && HasCopy(o, q) ==> o[q].localPath.value in d && d[o[q].localPath.value] == bytes)
  }

  /** An object gets new bytes by an upload to `skip`, or to no slot when its answer was lost. Whether every live
      upload is then true to the provider is decided by the overlay and the disk before the upload, and by which
      copies its eviction pass leaves. */
  lemma UploadFaithfulIff(o: Overlay, o': Overlay, now: int, d: Disk, d': Disk, u: nat, provider: Provider,
                          skip: Option<Path>, id: string, file: RemoteFile)
    requires Faithful(o, now, d, provider) && CopiesPresent(o, d, u) && OldFilesKept(d, d', u)
    requires Thinned(o, if skip.Some? then o' - {skip.value} else o')
    requires forall q :: Live(o, now, q) && Some(q) != skip ==> q in o'
    requires forall p :: HasCopy(o', p) ==> o'[p].localPath.value in d'
    requires skip.Some? ==> skip.value in o' && EntryFaithful(o'[skip.value], d', provider[id := file])
    ensures Faithful(o', now, d', provider[id := file]) <==> Spares(o, now, d, skip, id, file.bytes, KeptCopies(o'))
  {
    var rest := if skip.Some? then o' - {skip.value} else o';
    forall q | Some(q) != skip
      ensures Live(o', now, q) <==> Live(o, now, q)
      ensures Live(o, now, q) ==>
        (EntryFaithful(o'[q], d', provider[id := file]) <==> SparesOne(o, d, q, id, file.bytes, KeptCopies(o')))
    {
      assert q in o' ==> q in rest;
      if Live(o, now, q) {
        OneFaithfulIff(o, o', d, d', u, provider, q, id, file);
      }
    }
  }

  ghost predicate SparesOne(o: Overlay, d: Disk, q: Path, id: string, bytes: Bytes, kept: set<Path>)
    requires q in o
  {
    o[q].state == Uploaded && o[q].remoteId == Some(id) ==>
      && AccountedSize(o[q]) == |bytes|
      && (q in kept && HasCopy(o, q) ==> o[q].localPath.value in d && d[o[q].localPath.value] == bytes)
  }

  lemma OneFaithfulIff(o: Overlay, o': Overlay, d: Disk, d': Disk, u: nat, provider: Provider, q: Path, id: string, file: RemoteFile)
    requires q in o && q in o' && (o'[q] == o[q] || o'[q] == o[q].(localPath := None)) && EntryFaithful(o[q], d, provider)
    requires CopiesPresent(o, d, u) && OldFilesKept(d, d', u) && (HasCopy(o', q) ==> o'[q].localPath.value in d')
    ensures EntryFaithful(o'[q], d', provider[id := file]) <==> SparesOne(o, d, q, id, file.bytes, KeptCopies(o'))
  {
    assert HasCopy(o', q) ==> HasCopy(o, q) && d'[o'[q].localPath.value] == d[o[q].localPath.value];
  }

  /** An upload that creates an object can never make another upload untrue. */
  lemma NewObjectSpares(o: Overlay, now: int, d: Disk, provider: Provider, skip: Option<Path>, id: string, bytes: Bytes, kept: set<Path>)
    requires Faithful(o, now, d, provider) && id !in provider
    ensures Spares(o, now, d, skip, id, bytes, kept)
  {
    assert forall q :: Live(o, now, q) && o[q].state == Uploaded && o[q].remoteId.Some? ==> o[q].remoteId.value in provider;
  }

  /** A provider download: a range that starts beyond the file is refused, one that ends before it starts is
      ignored (sections 14.1.1 and 14.1.2 of RFC 9110). */
  function Download(content: Bytes, range: Option<ByteRange>): Result<Bytes> {
    match range
    case None => Ok(content)
    case Some(r) =>
      if r.end.Some? && r.end.value < r.start then Ok(content)
      else if r.start >= |content| then Err(RangeNotSatisfiable)
      else Ok(LocalSlice(content, range))
  }

  /** Reading a copy is the same as asking the provider exactly when the range can be satisfied, for every
      range with a non-negative start; otherwise the copy gives no bytes, and the provider an error or,
      for a range that ends before it starts, the whole file. */
  lemma CopyReadsLikeProvider(content: Bytes, range: Option<ByteRange>)
    requires range.Some? ==> range.value.start >= 0
    ensures Ok(LocalSlice(content, range)) == Download(content, range) <==>
      range.None?
      || (if range.value.end.Some? && range.value.end.value < range.value.start then content == []
          else range.value.start < |content|)
    ensures range.Some? && Ok(LocalSlice(content, range)) != Download(content, range) ==> LocalSlice(content, range) == []
  {
  }

  /** The range a download of `item` sends: without one, the bytes of the remembered size. */
  function SentRange(item: Item, range: Option<ByteRange>): Option<ByteRange> {
    if range.None? && item.size > 0 then Some(ByteRange(0, Some(item.size - 1))) else range
  }

  /** A download of `item`; whatever goes wrong with it comes back as one error. */
  function Fetch(provider: Provider, item: Item, range: Option<ByteRange>): Result<Bytes> {
    if item.id in provider && Download(provider[item.id].bytes, SentRange(item, range)).Ok? then
      Download(provider[item.id].bytes, SentRange(item, range))
    else
      Err(ProviderFailure)
  }

  /** A download without a range delivers the whole object exactly when the remembered size is not too small,
      and not more than nothing of an object that has become empty. A smaller size cuts the object short. */
  lemma StaleSizeCutsDownload(provider: Provider, item: Item)
    requires item.id in provider
    ensures var bytes := provider[item.id].bytes;
      && (Fetch(provider, item, None) == Ok(bytes) <==> item.size == 0 || (bytes != [] && |bytes| <= item.size))
      && (0 < item.size < |bytes| ==> Fetch(provider, item, None) == Ok(bytes[..item.size]))
  {
    var bytes := provider[item.id].bytes;
    if 0 < item.size < |bytes| {
      assert |bytes[..item.size]| == item.size;
    } else {
      assert bytes[..|bytes|] == bytes;
    }
  }

  /** The range asks for the whole file, or starts inside it and ends no earlier than it starts. */
  predicate Satisfiable(range: Option<ByteRange>, size: nat) {
    range.None? || (0 <= range.value.start < size && (range.value.end.Some? ==> range.value.start <= range.value.end.value))
  }

  /** The provider after it renamed or moved an object. */
  function Renamed(provider: Provider, id: string, name: string, folderId: string): Provider {
    if id in provider then provider[id := RemoteFile(folderId, name, provider[id].bytes)] else provider
  }

  lemma RenamingKeepsFaithful(o: Overlay, now: int, d: Disk, provider: Provider, id: string, name: string, folderId: string)
    ensures Faithful(o, now, d, provider) ==> Faithful(o, now, d, Renamed(provider, id, name, folderId))
  {
    if Faithful(o, now, d, provider) {
      forall p | Live(o, now, p) ensures EntryFaithful(o[p], d, Renamed(provider, id, name, folderId)) {
        assert EntryFaithful(o[p], d, provider);
      }
    }
  }

  /** Some live upload stands for the object `id`. */
  ghost predicate StandsFor(o: Overlay, now: int, id: string) {
    exists p :: Live(o, now, p) && o[p].state == Uploaded && o[p].remoteId == Some(id)
  }

  /** Trashing an object keeps the overlay faithful exactly when no live upload stands for that object. */
  lemma TrashingFaithfulIff(o: Overlay, now: int, d: Disk, provider: Provider, id: string)
    requires Faithful(o, now, d, provider)
    ensures Faithful(o, now, d, provider - {id}) <==> !StandsFor(o, now, id)
  {
    if StandsFor(o, now, id) {
      var p :| Live(o, now, p) && o[p].state == Uploaded && o[p].remoteId == Some(id);
      assert !EntryFaithful(o[p], d, provider - {id});
    } else {
      forall p | Live(o, now, p) ensures EntryFaithful(o[p], d, provider - {id}) {
        assert EntryFaithful(o[p], d, provider);
      }
    }
  }

  // ------------------------------------------------------------------ the same in bytes

  /** What a provider download gives: a range that ends before it starts is ignored, one that starts behind the last byte
      is refused, any other gives the bytes it names as far as they exist. */
  lemma DownloadsTo(content: Bytes, start: nat, end: Option<int>)
    ensures Download(content, None) == Ok(content)
    ensures end.Some? && end.value < start ==> Download(content, Some(ByteRange(start, end))) == Ok(content)
    ensures (end.Some? ==> start <= end.value) && start >= |content| ==>
      Download(content, Some(ByteRange(start, end))) == Err(RangeNotSatisfiable)
    ensures (end.Some? ==> start <= end.value) && start < |content| ==>
      Download(content, Some(ByteRange(start, end))) ==
        Ok(if end.None? || end.value >= |content| then content[start..] else content[start..end.value + 1])
  {
    if start < |content| {
      assert content[start..|content|] == content[start..];
    }
  }

  /** What a download of `item` gives: of an object the provider lacks nothing, without a range the first bytes up to the
      remembered size, and the failure of the provider whatever it does not like about the range. */
  lemma FetchesTo(provider: Provider, item: Item, start: nat, end: Option<int>)
    ensures item.id !in provider ==> Fetch(provider, item, None) == Fetch(provider, item, Some(ByteRange(start, end))) == Err(ProviderFailure)
    ensures item.id in provider && item.size == 0 ==> Fetch(provider, item, None) == Ok(provider[item.id].bytes)
    ensures item.id in provider && item.size > 0 ==>
      var bytes := provider[item.id].bytes;
      Fetch(provider, item, None) ==
        if bytes == [] then Err(ProviderFailure) else Ok(if item.size < |bytes| then bytes[..item.size] else bytes)
    ensures item.id in provider ==>
      match Download(provider[item.id].bytes, Some(ByteRange(start, end)))
      case Ok(bytes) => Fetch(provider, item, Some(ByteRange(start, end))) == Ok(bytes)
      case Err(_) => Fetch(provider, item, Some(ByteRange(start, end))) == Err(ProviderFailure)
  {
    if item.id in provider {
      var bytes := provider[item.id].bytes;
      DownloadsTo(bytes, 0, Some(item.size - 1));
      assert bytes[0..] == bytes && (0 < item.size <= |bytes| ==> bytes[0..item.size] == bytes[..item.size]);
      assert item.size == |bytes| ==> bytes[..item.size] == bytes;
    }
  }

  /** A renamed object keeps its bytes; no other changes. */
  lemma RenameReaches(provider: Provider, id: string, name: string, folderId: string, other: string)
    ensures var provider' := Renamed(provider, id, name, folderId);
      && (other in provider' <==> other in provider)
      && (id in provider ==> provider'[id] == RemoteFile(folderId, name, provider[id].bytes))
      && (other in provider && other != id ==> provider'[other] == provider[other])
  {
  }
}
