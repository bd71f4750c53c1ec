/**
 The file store that hides a lagging provider (src/o2gateway/o2/store.py).
 */
module Store {
  import opened Wrappers
  import opened Sums
  import opened CloudTypes
  import opened Spool
  import opened Eviction
  import opened Lookup
  import opened ListMerge
  import opened Contents
  import opened Steps
  import opened ByteRanges
  import MetadataCache

  class O2CloudFileStore {
    const setup: Setup
    const maxCopySize: nat
    const uploadTtl: nat
    const tombstoneTtl: nat

    var overlay: Overlay
    var pathToItem: map<Path, Item>
    var hidden: map<string, int>
    var stranded: Stranded

    const cache: MetadataCache.MetadataCache

    // The world around the store: the provider's files, spool directory, clock, uuid source.
    var provider: Provider
    var disk: Disk
    var now: int
    var uuids: nat

    // The promises of accepted deletes: until when each remote id must stay hidden, which of those were
    // lifted by a listing, and which ids were really trashed.
    ghost var deletedUntil: map<string, int>
    ghost var settled: set<string>
    ghost var trashed: set<string>

    // What happened so far: unlink calls and attempts to write a copy in order, and the highest disk usage at any moment.
    ghost var unlinks: seq<Unlink>
    ghost var writes: seq<Write>
    ghost var peak: nat

    constructor (budget: nat, maxCopySize: nat, uploadTtl: nat, tombstoneTtl: nat,
                 cache: MetadataCache.MetadataCache, provider: Provider, leftovers: Disk, now: int, uuids: nat)
      requires forall n :: n in leftovers ==> n < uuids
      ensures Valid() && Faithful(overlay, now, disk, provider)
      ensures setup == Setup(budget, leftovers) && this.cache == cache && this.provider == provider
      ensures this.maxCopySize == maxCopySize && this.uploadTtl == uploadTtl && this.tombstoneTtl == tombstoneTtl
      ensures overlay == map[] && pathToItem == map[] && hidden == map[] && disk.Keys == stranded.Keys
      ensures deletedUntil == map[] && settled == {} && trashed == {} && this.now == now
    {
      hide Inv, CopiesOf, Shrinks, SlotsOk, PromisesKept, Faithful;
      this.setup, this.cache := Setup(budget, leftovers), cache;
      this.maxCopySize, this.uploadTtl, this.tombstoneTtl := maxCopySize, uploadTtl, tombstoneTtl;
      this.overlay, this.pathToItem, this.hidden, this.stranded := map[], map[], map[], map[];
      this.provider, this.disk, this.now, this.uuids := provider, leftovers, now, uuids;
      this.unlinks, this.writes, this.peak := [], [], Usage(leftovers);
      this.deletedUntil, this.settled, this.trashed := map[], {}, {};
      new;
      PurgeOrphanedLocalCopies();
      EmptyIsFine(now, disk, provider);
    }

    // ---------------------------------------------------------------- invariant

    /** Names are drawn from a source that never repeats one. */
    ghost predicate NamesDrawn()
      reads `disk, `stranded, `uuids
    {
      && (forall n :: n in disk ==> n < uuids)
      && (forall n :: n in stranded ==> n < uuids)
      && (forall n :: n in setup.leftovers ==> n < uuids)
    }

    /** The recorded peak covers what the directory takes, and is bounded. */
    ghost predicate PeakBounded()
      reads `peak, `disk
    {
      && Usage(disk) <= peak
      && (setup.budget > 0 ==> peak <= setup.budget || peak <= Usage(setup.leftovers))
    }

    /** The spool invariant with `st` as the stranded copies; a copy being made counts as one. */
    ghost predicate SpoolOk(st: Stranded)
      reads `overlay, `stranded, `disk, `uuids, `peak
    {
      && Inv(CopiesOf(overlay), st, disk, setup)
      && NamesDrawn()
      && PeakBounded()
    }

    /** Every accepted delete still hides its object until its time, unless a listing lifted it. */
    ghost predicate LedgerOk()
      reads `hidden, `now, `deletedUntil, `settled
    {
      PromisesKept(hidden, now, deletedUntil, settled)
    }

    /** What holds between any two operations. */
    ghost predicate Valid()
      reads this
    {
      SpoolOk(stranded) && SlotsOk(overlay) && LedgerOk()
    }

    /** Main result on the spool directory: in every state an operation leaves behind, a positive budget bounds
        what it takes now, and what it took at any moment before, for which `peak` stands: every method that writes
        a copy lets it grow with every piece. Only what start-up found may be more. */
    lemma DiskBounded()
      requires Valid() && setup.budget > 0
      ensures Usage(disk) <= peak && (peak <= setup.budget || peak <= Usage(setup.leftovers))
      ensures Usage(disk) <= setup.budget || Usage(disk) <= Usage(setup.leftovers)
    {
      UsageBounded(CopiesOf(overlay), stranded, disk, setup);
    }

    /** Every file of the spool directory is the copy of exactly one overlay entry or else a stranded copy, and
        every copy this process made is accounted for at least the bytes it takes. */
    lemma EveryFileTrackedOnce(n: CopyName)
      requires Valid() && n in disk
      ensures n in stranded <==> !exists p :: HasCopy(overlay, p) && overlay[p].localPath == Some(n)
      ensures forall p, q ::
        HasCopy(overlay, p) && HasCopy(overlay, q) && overlay[p].localPath == overlay[q].localPath == Some(n) ==> p == q
      ensures forall p :: HasCopy(overlay, p) && overlay[p].localPath == Some(n) ==> AccountedSize(overlay[p]) == |disk[n]|
      ensures n in stranded && n !in setup.leftovers ==> |disk[n]| <= stranded[n]
    {
      var c := CopiesOf(overlay);
      assert forall p :: HasCopy(overlay, p) ==> p in c && c[p] == Copy(overlay[p].localPath.value, AccountedSize(overlay[p]));
      if n !in stranded {
        assert Holds(c, n);
        var p :| p in c && c[p].name == n;
        assert HasCopy(overlay, p) && overlay[p].localPath == Some(n);
      }
    }

    /** The copies the overlay holds are there. */
    lemma CopiesAreThere()
      requires SpoolOk(stranded)
      ensures CopiesPresent(overlay, disk, uuids)
    {
      forall p | HasCopy(overlay, p) ensures overlay[p].localPath.value in disk {
        assert CopiesOf(overlay)[p].name == overlay[p].localPath.value;
      }
    }

    // ---------------------------------------------------------------- spool directory

    /** `os.unlink`, which may fail at any time. */
    method DeleteLocalCopy(name: CopyName) returns (gone: bool)
      modifies `disk, `unlinks
      ensures unlinks == old(unlinks) + [Unlink(name, gone)]
      ensures disk == if gone then old(disk) - {name} else old(disk)
    {
      gone := *;
      unlinks := unlinks + [Unlink(name, gone)];
      if gone {
        disk := disk - {name};
      }
    }

    /** `shutil.copyfile`, on record. It reports how much of the source was there after each piece; the peak covers all of
        these moments. */
    method CopyFile(source: Bytes, target: CopyName, ghost reserved: Stranded) returns (copied: bool, ghost cuts: seq<nat>)
      requires SpoolOk(reserved)
      requires target in reserved && target !in setup.leftovers && |source| <= reserved[target]
      requires target !in disk && target < uuids
      modifies `disk, `peak, `writes
      ensures SpoolOk(reserved) && old(peak) <= peak && writes == old(writes) + [Write(target, |source|, copied)]
      ensures WrittenAt(cuts, source, target, old(disk), disk)
      ensures forall i :: 0 <= i < |cuts| ==> Usage(old(disk)[target := source[..cuts[i]]]) <= peak
      ensures copied ==> target in disk && disk[target] == source
    {
      hide Inv, CopiesOf, Usage, WrittenAt, NamesDrawn, PeakBounded;
      copied, cuts := WritePieces(source, target, reserved);
      writes := writes + [Write(target, |source|, copied)];
    }

    /** Its pieces: it may fail before, between or after any of them. */
    method WritePieces(source: Bytes, target: CopyName, ghost reserved: Stranded) returns (copied: bool, ghost cuts: seq<nat>)
      requires SpoolOk(reserved)
      requires target in reserved && target !in setup.leftovers && |source| <= reserved[target]
      requires target !in disk && target < uuids
      modifies `disk, `peak
      ensures SpoolOk(reserved) && old(peak) <= peak
      ensures WrittenAt(cuts, source, target, old(disk), disk)
      ensures forall i :: 0 <= i < |cuts| ==> Usage(old(disk)[target := source[..cuts[i]]]) <= peak
      ensures copied ==> target in disk && disk[target] == source
    {
      hide Inv, CopiesOf, Usage;
      copied, cuts := *, [];
      if !copied {
        return;
      }
      var written := 0;
      while true
        invariant written <= |source| && (cuts != [] ==> cuts[|cuts| - 1] < written) && (cuts == [] ==> written == 0)
        invariant SpoolOk(reserved) && old(peak) <= peak
        invariant WrittenAt(cuts, source, target, old(disk), disk)
        invariant forall i :: 0 <= i < |cuts| ==> Usage(old(disk)[target := source[..cuts[i]]]) <= peak
        decreases |source| - written
      {
        PartialWriteKeeps(CopiesOf(overlay), reserved, target, source[..written], disk, setup);
        disk := disk[target := source[..written]];
        assert disk == old(disk)[target := source[..written]];
        cuts := cuts + [written];
        if setup.budget > 0 {
          UsageBounded(CopiesOf(overlay), reserved, disk, setup);
        }
        peak := if Usage(disk) > peak then Usage(disk) else peak;
        if written == |source| {
          return;
        }
        var more: int := *;
        if more <= 0 || more > |source| - written {
          copied := false;
          return;
        }
        written := written + more;
      }
    }

    /** Deletes the copy an entry held; a copy that cannot be deleted is stranded. */
    method DiscardCopy(copy: Copy, path: Path, ghost c: Copies)
      requires path in c && c[path] == copy && CopiesOf(overlay) == c - {path}
      requires Inv(c, stranded, disk, setup) && NamesDrawn() && PeakBounded()
      modifies `stranded, `disk, `unlinks
      ensures SpoolOk(stranded)
      ensures Discarded(copy, old(unlinks), unlinks, old(disk), disk, old(stranded), stranded)
    {
      hide Inv, Usage;
      var gone := DeleteLocalCopy(copy.name);
      UsageWithout(old(disk), copy.name);
      if gone {
        DeletedKeeps(c, path, stranded, old(disk), setup);
      } else {
        StrandedKeeps(c, path, stranded, disk, setup);
        stranded := stranded[copy.name := copy.size];
      }
    }

    /** `_drop_entry` */
    method DropEntry(path: Path)
      requires SpoolOk(stranded)
      modifies `overlay, `pathToItem, `stranded, `disk, `unlinks
      ensures SpoolOk(stranded)
      ensures overlay == old(overlay) - {path}
      ensures pathToItem == old(pathToItem) - {path}
      ensures !old(HasCopy(overlay, path)) ==>
        unlinks == old(unlinks) && disk == old(disk) && stranded == old(stranded)
      ensures old(HasCopy(overlay, path)) ==>
        Discarded(old(CopiesOf(overlay)[path]), old(unlinks), unlinks, old(disk), disk, old(stranded), stranded)
    {
      hide Inv;
      ghost var c := CopiesOf(overlay);
      pathToItem := pathToItem - {path};
      if path !in overlay {
        assert overlay - {path} == overlay;
        return;
      }
      var entry := overlay[path];
      overlay := overlay - {path};
      assert CopiesOf(overlay) == c - {path};
      if entry.localPath.None? {
        assert c - {path} == c;
        return;
      }
      DiscardCopy(Copy(entry.localPath.value, AccountedSize(entry)), path, c);
    }

    /** `_local_copies_size`: the sizes of the overlay's copies, then those of the stranded ones. */
    method LocalCopiesSize() returns (total: nat)
      ensures total == Total(CopiesOf(overlay), stranded)
    {
      var tracked := SumOf(Sizes(CopiesOf(overlay)));
      var abandoned := SumOf(stranded);
      total := tracked + abandoned;
    }

    static method SumOf<K(!new)>(m: map<K, nat>) returns (total: nat)
      ensures total == Sum(m)
    {
      total := 0;
      var rest := m;
      while rest != map[]
        invariant total + Sum(rest) == Sum(m)
        decreases rest.Keys
      {
        var k :| k in rest;
        SumRemove(rest, k);
        total := total + rest[k];
        rest := rest - {k};
      }
    }

    /** `sorted(candidates, key=expires_at)` */
    method EvictionOrder() returns (order: seq<Path>)
      ensures IsEvictionOrder(order, overlay)
    {
      order := [];
      var rest := set p | p in overlay && HasCopy(overlay, p);
      while rest != {}
        invariant forall p :: p in order || p in rest <==> HasCopy(overlay, p)
        invariant forall p :: p in order ==> p !in rest
        invariant forall i, j :: 0 <= i < j < |order| ==> order[i] != order[j]
        invariant forall i, j :: 0 <= i < j < |order| && HasCopy(overlay, order[i]) && HasCopy(overlay, order[j]) ==>
          overlay[order[i]].expiresAt <= overlay[order[j]].expiresAt
        invariant forall p, q :: p in order && q in rest && HasCopy(overlay, p) && HasCopy(overlay, q) ==>
          overlay[p].expiresAt <= overlay[q].expiresAt
        decreases rest
      {
        var oldest := Oldest(rest);
        order := order + [oldest];
        rest := rest - {oldest};
      }
    }

    method Oldest(candidates: set<Path>) returns (oldest: Path)
      requires candidates != {} && forall p :: p in candidates ==> p in overlay
      ensures oldest in candidates
      ensures forall p :: p in candidates ==> overlay[oldest].expiresAt <= overlay[p].expiresAt
    {
      oldest :| oldest in candidates;
      var rest := candidates - {oldest};
      while rest != {}
        invariant oldest in candidates && rest <= candidates
        invariant forall p :: p in candidates && p !in rest ==> overlay[oldest].expiresAt <= overlay[p].expiresAt
        decreases rest
      {
        var p :| p in rest;
        if overlay[p].expiresAt < overlay[oldest].expiresAt {
          oldest := p;
        }
        rest := rest - {p};
      }
    }

    /** One eviction attempt: a copy that cannot be deleted keeps its entry and its size. */
    method EvictCopy(path: Path) returns (gone: bool)
      requires SpoolOk(stranded) && HasCopy(overlay, path)
      modifies `overlay, `disk, `unlinks
      ensures SpoolOk(stranded)
      ensures unlinks == old(unlinks) + [Unlink(old(overlay[path].localPath.value), gone)]
      ensures overlay == if gone then WithoutCopy(old(overlay), path) else old(overlay)
      ensures disk == if gone then old(disk) - {old(overlay[path].localPath.value)} else old(disk)
    {
      hide Inv, Usage;
      gone := DeleteLocalCopy(overlay[path].localPath.value);
      UsageWithout(old(disk), overlay[path].localPath.value);
      if gone {
        DeletedKeeps(CopiesOf(overlay), path, stranded, old(disk), setup);
        CopiesWithout(overlay, path);
        overlay := overlay[path := overlay[path].(localPath := None)];
      }
    }

    /** `_reserve_local_copy`. Besides the answer it reports, as ghosts, the candidates in eviction order
        and what each tried unlink answered. */
    method ReserveLocalCopy(size: nat) returns (fits: bool, ghost order: seq<Path>, ghost gone: seq<bool>)
      requires SpoolOk(stranded)
      modifies `overlay, `disk, `unlinks
      ensures SpoolOk(stranded)
      ensures IsEvictionOrder(order, old(overlay)) && |gone| <= |order|
      ensures overlay == AfterEvicting(old(overlay), order, gone)
      ensures unlinks == old(unlinks) + EvictionLog(old(overlay), order, gone)
      ensures Shrinks(old(disk), disk)
      // A budget of 0 is no limit; a copy above the whole budget is refused without evicting anything.
      ensures setup.budget == 0 || size > setup.budget ==> gone == []
      ensures fits <==> setup.budget == 0 || Total(CopiesOf(overlay), stranded) + size <= setup.budget
      // It evicts only while the copies left do not make room, and gives up only after trying them all.
      ensures gone != [] ==>
        Total(CopiesOf(AfterEvicting(old(overlay), order, gone[..|gone| - 1])), stranded) + size > setup.budget
      ensures !fits ==> size > setup.budget || |gone| == |order|
    {
      hide SpoolOk, Total, CopiesOf, Shrinks, Evicting, WithoutCopy, IsEvictionOrder, AllHold, HasCopy;
      gone := [];
      ghost var o, log, d := overlay, unlinks, disk;
      ShrinksNot(d);
      var candidates := EvictionOrder();
      order := candidates;
      EvictedNothing(o, log, order, stranded, size, setup.budget);
      WhatEvictingMeans(o, overlay, log, unlinks, order, gone, stranded, size, setup.budget);
      if setup.budget == 0 {
        fits := true;
        return;
      }
      if size > setup.budget {
        fits := false;
        return;
      }
      var total := LocalCopiesSize();
      var i := 0;
      while i < |candidates| && total + size > setup.budget
        invariant i == |gone| <= |order|
        invariant SpoolOk(stranded) && Shrinks(d, disk)
        invariant Evicting(o, overlay, log, unlinks, order, gone, stranded, size, setup.budget)
        invariant total == Total(CopiesOf(overlay), stranded)
      {
        CandidateUntouched(o, overlay, log, unlinks, order, gone, stranded, size, setup.budget);
        var entry := overlay[candidates[i]];
        ghost var o1, log1, d1 := overlay, unlinks, disk;
        var evicted := EvictCopy(candidates[i]);
        ShrinksBy(d1, disk, entry.localPath.value, evicted);
        ShrinksTwice(d, d1, disk);
        EvictNext(o, o1, log, log1, order, gone, stranded, size, setup.budget, evicted);
        gone := gone + [evicted];
        if evicted {
          total := total - AccountedSize(entry);
        }
        i := i + 1;
      }
      fits := total + size <= setup.budget;
      WhatEvictingMeans(o, overlay, log, unlinks, order, gone, stranded, size, setup.budget);
    }

    /** `_make_local_copy`. On success the new file is accounted for as if it were stranded, until the
        caller stores the entry that owns it. */
    method MakeLocalCopy(source: Bytes) returns (copy: Option<CopyName>)
      requires SpoolOk(stranded)
      modifies `overlay, `stranded, `disk, `unlinks, `uuids, `peak, `writes
      ensures old(peak) <= peak
      ensures OnlyCopiesDropped(old(overlay), overlay)
      // A copy is given up only when the upload is too large to be copied, does not fit, or cannot be written.
      ensures |source| > maxCopySize ==> overlay == old(overlay) && writes == old(writes)
      ensures |source| <= maxCopySize ==> RoomMade(old(overlay), overlay, old(stranded), |source|, setup.budget, writes != old(writes))
      ensures writes == old(writes) || writes == old(writes) + [Write(old(uuids), |source|, copy.Some?)]
      ensures copy.Some? ==> copy == Some(old(uuids)) && writes != old(writes)
      ensures writes == old(writes) ==> stranded == old(stranded)
      ensures old(uuids) <= uuids && OldFilesKept(old(disk), disk, old(uuids))
      ensures copy.None? ==> SpoolOk(stranded)
      ensures copy.Some? ==> |source| <= maxCopySize && CopyReady(copy.value, source)
    {
      hide Inv, Total, CopiesOf, Usage, IsEvictionOrder, AllHold, OnlyCopiesDropped, WrittenAt, Shrinks, OldFilesKept, RoomMade;
      copy := None;
      ghost var o, d := overlay, disk;
      NothingCopied(o, d, uuids);
      if |source| > maxCopySize {
        return;
      }
      var fits, order, gone := ReserveLocalCopy(|source|);
      OrderHolds(order, o);
      EvictingOnlyDropsCopies(o, order, gone);
      RoomMadeBy(o, stranded, |source|, setup.budget, order, gone);
      ghost var d1 := disk;
      ShrunkIsOld(d, d1, uuids);
      if !fits {
        return;
      }
      var target := uuids;
      uuids := uuids + 1;
      ghost var reserved := stranded[target := |source|];
      ReserveKeeps(CopiesOf(overlay), stranded, target, |source|, disk, setup);
      var copied, cuts := CopyFile(source, target, reserved);
      WrittenIsNew(d, d1, disk, cuts, source, target);
      if copied {
        copy := Some(target);
        return;
      }
      var _, _ := AbandonCopy(target, |source|);
    }

    /** A file of this process that no entry owns yet, whole on disk. */
    ghost predicate CopyReady(n: CopyName, source: Bytes)
      reads `overlay, `stranded, `disk, `uuids, `peak
    {
      && n !in stranded && n !in setup.leftovers
      && n in disk && disk[n] == source
      && SpoolOk(stranded[n := |source|])
    }

    /** The clean-up after a failed copy: the partial file goes, or is stranded. */
    method AbandonCopy(target: CopyName, size: nat) returns (ghost gone: bool, ghost left: nat)
      requires target !in stranded && target !in setup.leftovers && target < uuids
      requires SpoolOk(stranded[target := size]) && (target in disk ==> |disk[target]| <= size)
      modifies `stranded, `disk, `unlinks
      ensures SpoolOk(stranded)
      ensures unlinks == old(unlinks) + [Unlink(target, gone)]
      ensures disk == if gone then old(disk) - {target} else old(disk)
      ensures stranded == if gone then old(stranded) else old(stranded)[target := left]
      ensures left == size || (target in disk && left == |disk[target]|)
    {
      hide Inv, CopiesOf, Usage;
      ghost var reserved := stranded[target := size];
      left := size;
      var deleted := DeleteLocalCopy(target);
      UsageWithout(old(disk), target);
      gone := deleted;
      if deleted {
        SweptKeeps(CopiesOf(overlay), reserved, target, old(disk), setup);
        assert reserved - {target} == stranded;
      } else {
        var statWorks: bool := *;
        var found := if statWorks && target in disk then |disk[target]| else size;
        left := found;
        RestateKeeps(CopiesOf(overlay), reserved, target, found, disk, setup);
        stranded := stranded[target := found];
        assert stranded == reserved[target := found] && stranded.Keys == reserved.Keys;
      }
    }

    /** `_sweep_expired_entries` */
    method SweepExpiredEntries()
      requires SpoolOk(stranded)
      modifies `overlay, `pathToItem, `stranded, `disk, `unlinks
      ensures SpoolOk(stranded)
      ensures overlay == old(overlay) - Expired(old(overlay), now)
      ensures pathToItem == old(pathToItem) - Expired(old(overlay), now)
      ensures Shrinks(old(disk), disk)
    {
      hide SpoolOk, CopiesOf;
      var rest := Expired(overlay, now);
      while rest != {}
        invariant SpoolOk(stranded)
        invariant rest <= Expired(old(overlay), now)
        invariant overlay == old(overlay) - (Expired(old(overlay), now) - rest)
        invariant pathToItem == old(pathToItem) - (Expired(old(overlay), now) - rest)
        invariant Shrinks(old(disk), disk)
        decreases rest
      {
        var path :| path in rest;
        DropEntry(path);
        rest := rest - {path};
      }
      var _ := RetryStranded();
    }

    /** The second half of the sweep: every stranded copy is unlinked once more, and forgotten if that worked. */
    method RetryStranded() returns (ghost gone: set<CopyName>)
      requires SpoolOk(stranded)
      modifies `stranded, `disk, `unlinks
      ensures SpoolOk(stranded)
      ensures stranded == old(stranded) - gone && disk == old(disk) - gone
      ensures old(unlinks) <= unlinks
      ensures forall n :: n in old(stranded) ==> Unlink(n, n in gone) in unlinks[|old(unlinks)|..]
    {
      hide SpoolOk, CopiesOf, Usage, Retried;
      gone := {};
      var rest := stranded.Keys;
      ghost var st, d, log := stranded, disk, unlinks;
      NothingRetried(st, d, log);
      while rest != {}
        invariant SpoolOk(stranded) && rest <= stranded.Keys
        invariant Retried(st, stranded, d, disk, log, unlinks, gone, rest)
        decreases rest
      {
        var name :| name in rest;
        RetriedOneMore(st, stranded, d, disk, log, unlinks, gone, rest, name);
        var deleted := RetryOne(name);
        if deleted {
          gone := gone + {name};
        }
        rest := rest - {name};
      }
      WhatRetriedMeans(st, stranded, d, disk, log, unlinks, gone);
    }

    /** One stranded copy of the retry. */
    method RetryOne(name: CopyName) returns (deleted: bool)
      requires SpoolOk(stranded) && name in stranded
      modifies `stranded, `disk, `unlinks
      ensures SpoolOk(stranded) && unlinks == old(unlinks) + [Unlink(name, deleted)]
      ensures stranded == (if deleted then old(stranded) - {name} else old(stranded))
      ensures disk == if deleted then old(disk) - {name} else old(disk)
    {
      hide Inv, CopiesOf, Usage;
      ghost var d := disk;
      deleted := DeleteLocalCopy(name);
      UsageWithout(d, name);
      if deleted {
        SweptKeeps(CopiesOf(overlay), stranded, name, d, setup);
        stranded := stranded - {name};
      }
    }

    /** `_purge_orphaned_local_copies`: what an earlier process left is deleted, or else stranded at its
        size, or at the whole budget when even its size cannot be read. */
    method PurgeOrphanedLocalCopies()
      requires overlay == map[] && stranded == map[] && disk == setup.leftovers
      requires NamesDrawn() && PeakBounded()
      modifies `stranded, `disk, `unlinks
      ensures SpoolOk(stranded)
      ensures disk.Keys == stranded.Keys && Shrinks(setup.leftovers, disk)
      ensures forall n :: n in stranded ==> stranded[n] == |disk[n]| || stranded[n] == setup.budget
    {
      hide Inv, Usage;
      var rest := disk.Keys;
      while rest != {}
        invariant disk.Keys == rest + stranded.Keys && rest !! stranded.Keys
        invariant Shrinks(setup.leftovers, disk) && Usage(disk) <= peak
        invariant forall n :: n in stranded ==> stranded[n] == |disk[n]| || stranded[n] == setup.budget
        decreases rest
      {
        var leftover :| leftover in rest;
        PurgeOne(leftover);
        rest := rest - {leftover};
      }
      assert CopiesOf(overlay) == map[];
      PurgedInv(stranded, disk, setup);
    }

    /** One leftover of the purge. */
    method PurgeOne(leftover: CopyName)
      requires leftover in disk && leftover !in stranded && Usage(disk) <= peak
      modifies `stranded, `disk, `unlinks
      ensures Usage(disk) <= peak && (leftover in disk <==> leftover in stranded)
      ensures disk == old(disk) || disk == old(disk) - {leftover}
      ensures stranded - {leftover} == old(stranded)
      ensures leftover in stranded ==> stranded[leftover] == |disk[leftover]| || stranded[leftover] == setup.budget
    {
      hide Usage;
      UsageWithout(disk, leftover);
      var gone := DeleteLocalCopy(leftover);
      if !gone {
        var statWorks: bool := *;
        stranded := stranded[leftover := if statWorks then |disk[leftover]| else setup.budget];
      }
      assert stranded - {leftover} == old(stranded);
    }

    /** The first lines of `_store_uploaded`: the slot is freed and everything expired is swept. */
    method FreeSlot(path: Path)
      requires SpoolOk(stranded)
      modifies `overlay, `pathToItem, `stranded, `disk, `unlinks
      ensures SpoolOk(stranded)
      ensures overlay == old(overlay) - Expired(old(overlay), now) - {path}
      ensures pathToItem == old(pathToItem) - Expired(old(overlay), now) - {path}
      ensures Shrinks(old(disk), disk)
    {
      hide SpoolOk, CopiesOf;
      DropEntry(path);
      assert Shrinks(old(disk), disk);
      SweepExpiredEntries();
    }

    /** `_store_uploaded`: the upload the provider accepted becomes the live entry of its path. */
    method StoreUploaded(path: Path, uploaded: Item, pending: bool, source: Bytes, parentFolderId: string)
      returns (entry: Entry)
      requires SpoolOk(stranded) && !uploaded.isFolder
      modifies `overlay, `pathToItem, `stranded, `disk, `unlinks, `uuids, `peak, `writes
      ensures SpoolOk(stranded) && old(peak) <= peak
      ensures entry.localPath.None? && writes == old(writes) ==>
        |source| > maxCopySize || CopyRefused(overlay - {path}, stranded, |source|, setup.budget)
      ensures writes == old(writes) || writes == old(writes) + [Write(old(uuids), |source|, entry.localPath.Some?)]
      ensures entry.localPath.Some? ==> entry.localPath == Some(old(uuids)) && writes != old(writes)
      ensures old(uuids) <= uuids && OldFilesKept(old(disk), disk, old(uuids))
      ensures IsUploadEntry(entry, path, uploaded, pending, |source|, parentFolderId, now + uploadTtl)
      ensures entry.localPath.Some? ==>
        |source| <= maxCopySize && entry.localPath.value in disk && disk[entry.localPath.value] == source
      ensures path in overlay && overlay[path] == entry
      ensures OnlyCopiesDropped(old(overlay) - Expired(old(overlay), now) - {path}, overlay - {path})
      ensures pathToItem == (old(pathToItem) - Expired(old(overlay), now) - {path})[path := entry.item]
    {
      hide SpoolOk, CopiesOf, WeakETag, CopyRefused, RoomMade;
      FreeSlot(path);
      ghost var free, log := overlay, writes;
      var localCopy := MakeLocalCopy(source);
      ghost var o := overlay;
      if localCopy.None? && |source| <= maxCopySize && writes == log {
        RefusedWithoutRoom(free, o, stranded, |source|, setup.budget);
      }
      var item := uploaded.(name := Base(path), parentId := Some(parentFolderId), size := |source|);
      entry := Entry(Uploaded, item, ToMetadata(item, path), localCopy,
                     if pending then None else Some(uploaded.id), Some(parentFolderId), now + uploadTtl, false);
      PutEntry(path, entry, source);
      pathToItem := pathToItem[path := item];
      assert overlay - {path} == o;
    }

    /** Puts the entry of a finished upload into its free slot. */
    method PutEntry(path: Path, entry: Entry, ghost source: Bytes)
      requires path !in overlay && entry.state == Uploaded
      requires entry.localPath.None? ==> SpoolOk(stranded)
      requires entry.localPath.Some? ==> CopyReady(entry.localPath.value, source) && AccountedSize(entry) == |source|
      modifies `overlay
      ensures SpoolOk(stranded)
      ensures overlay == old(overlay)[path := entry]
    {
      hide Inv, CopiesOf, AccountedSize, Usage;
      CopiesAfterPut(overlay, path, entry);
      if entry.localPath.Some? {
        AdoptKeeps(CopiesOf(overlay), path, stranded, entry.localPath.value, disk, setup);
      }
      overlay := overlay[path := entry];
    }

    // ---------------------------------------------------------------- lookup

    ghost function Memory(): View
      reads `overlay, `pathToItem, `hidden, `now
    {
      View(overlay, pathToItem, hidden, now)
    }

    /** `_entry`: the live entry of a path; an expired one is dropped on the way. */
    method EntryAt(path: Path) returns (entry: Option<Entry>)
      requires SpoolOk(stranded)
      modifies `overlay, `pathToItem, `stranded, `disk, `unlinks
      ensures SpoolOk(stranded) && Shrinks(old(disk), disk)
      ensures entry == if Live(old(overlay), now, path) then Some(old(overlay)[path]) else None
      ensures old(path in overlay) && entry.None? ==>
        overlay == old(overlay) - {path} && pathToItem == old(pathToItem) - {path}
      ensures old(path !in overlay) || entry.Some? ==> overlay == old(overlay) && pathToItem == old(pathToItem)
      ensures Aged(old(Memory()), Memory()) && SameBelow(old(Memory()), Memory(), |path|)
      ensures ForgetsOnly(old(Memory()), Memory()) && Remembers(old(Memory()), Memory())
    {
      hide SpoolOk, CopiesOf;
      if path !in overlay {
        return None;
      }
      entry := Some(overlay[path]);
      if now >= overlay[path].expiresAt {
        DropExpired(Memory(), path);
        DropEntry(path);
        entry := None;
      }
    }

    /** `_is_hidden_remote_id` */
    method IsHiddenRemoteId(id: string) returns (hides: bool)
      modifies `hidden
      ensures hides == Hidden(old(hidden), now, id)
      ensures hidden == if id in old(hidden) && !hides then old(hidden) - {id} else old(hidden)
    {
      if id !in hidden {
        return false;
      }
      if now >= hidden[id] {
        hidden := hidden - {id};
        return false;
      }
      return true;
    }

    /** One listed child: unless hidden or covered by the overlay, its item is remembered. */
    method LearnChild(folder: Path, name: string, child: Item) returns (matched: bool)
      requires SpoolOk(stranded)
      modifies `overlay, `pathToItem, `hidden, `stranded, `disk, `unlinks
      ensures SpoolOk(stranded) && Shrinks(old(disk), disk)
      ensures matched == Matches(old(Memory()), folder, name, child)
      ensures pathToItem == if Uncovered(old(Memory()), folder, child) then old(pathToItem)[Join(folder, child.name) := child] else old(pathToItem)
      ensures Aged(old(Memory()), Memory()) && SameBelow(old(Memory()), Memory(), |folder| + 1)
      ensures LearnsChildren(old(Memory()), Memory(), folder, [child]) && Remembers(old(Memory()), Memory())
    {
      hide SpoolOk, CopiesOf, Aged, SameBelow, LearnsFrom, Remembers, LearnsChildren, ForgetsOnly, Shrinks, Hidden, Live, Uncovered;
      ghost var before, d := Memory(), disk;
      ShrinksNot(d);
      var hides := IsHiddenRemoteId(child.id);
      HiddenAged(before, hidden, child.id);
      UncoveredIsFree(before, folder, child);
      OnlyForgotten(before, Memory(), folder, child);
      if hides {
        return false;
      }
      var childPath := Join(folder, child.name);
      ghost var mid := Memory();
      var entry := EntryAt(childPath);
      RemembersTwice(before, mid, Memory());
      AgedTwice(before, mid, Memory());
      SameBelowTwice(before, mid, Memory(), |childPath|, |childPath|);
      ForgetsTwice(before, mid, Memory());
      OnlyForgotten(before, Memory(), folder, child);
      if entry.Some? {
        return false;
      }
      LearnedAt(before, Memory(), childPath, child);
      ChildLearned(before, Memory(), folder, child);
      assert (before.pathToItem - {childPath})[childPath := child] == before.pathToItem[childPath := child];
      pathToItem := pathToItem[childPath := child];
      matched := Lower(child.name) == Lower(name);
    }

    /** The loop of `_item_for_path` over a listing. */
    method LearnChildren(folder: Path, name: string, children: seq<Item>) returns (result: Option<Item>)
      requires SpoolOk(stranded)
      modifies `overlay, `pathToItem, `hidden, `stranded, `disk, `unlinks
      ensures SpoolOk(stranded) && Shrinks(old(disk), disk)
      ensures result == LastMatch(old(Memory()), folder, name, children)
      ensures Aged(old(Memory()), Memory()) && SameBelow(old(Memory()), Memory(), |folder| + 1)
      ensures LearnsChildren(old(Memory()), Memory(), folder, children) && Remembers(old(Memory()), Memory())
      ensures pathToItem == old(pathToItem) + UncoveredItems(old(Memory()), folder, children)
    {
      hide SpoolOk, CopiesOf, Aged, SameBelow, LearnsFrom, LearnsChildren, Matches, Remembers, Shrinks, Uncovered, HoldsListing;
      ghost var before, d, pti := Memory(), disk, pathToItem;
      result := None;
      ShrinksNot(d);
      NothingLearned(before, folder);
      HoldsNothing(pti, before, folder);
      for i := 0 to |children|
        invariant SpoolOk(stranded) && Shrinks(d, disk)
        invariant result == LastMatch(before, folder, name, children[..i])
        invariant HoldsListing(pti, pathToItem, before, folder, children[..i])
        invariant Aged(before, Memory()) && SameBelow(before, Memory(), |folder| + 1)
        invariant LearnsChildren(before, Memory(), folder, children[..i]) && Remembers(before, Memory())
      {
        ghost var mid, d1 := Memory(), disk;
        assert children[..i + 1][..i] == children[..i] && children[..i] + [children[i]] == children[..i + 1];
        AgedLastMatch(before, mid, folder, name, [children[i]]);
        HoldsOneMore(pti, pathToItem, before, mid, folder, children[..i], children[i]);
        var matched := LearnChild(folder, name, children[i]);
        ShrinksTwice(d, d1, disk);
        AgedTwice(before, mid, Memory());
        SameBelowTwice(before, mid, Memory(), |folder| + 1, |folder| + 1);
        LearnsChildrenTwice(before, mid, Memory(), folder, children[..i], [children[i]]);
        RemembersTwice(before, mid, Memory());
        if matched {
          result := Some(children[i]);
        }
      }
      assert children[..|children|] == children;
      WhatHoldsMeans(pti, pathToItem, before, folder, children);
    }

    /** `_item_for_path` */
    method ItemForPath(path: Path, remote: Remote) returns (r: Result<Option<Item>>)
      requires SpoolOk(stranded)
      modifies `overlay, `pathToItem, `hidden, `stranded, `disk, `unlinks
      ensures SpoolOk(stranded) && Shrinks(old(disk), disk)
      ensures r == Resolve(old(Memory()), remote, path)
      ensures LookupEffects(old(Memory()), Memory(), remote, path) && Remembered(old(Memory()), Memory(), remote, path)
      decreases |path|, 1
    {
      hide SpoolOk, CopiesOf, Aged, SameBelow, LearnsFrom, Remembers, ForgetsOnly, Remembered;
      ghost var before := Memory();
      var entry := EntryAt(path);
      ghost var mid := Memory();
      LearnsNothing(before, mid, remote);
      NothingAsked(before, mid, remote, path);
      if entry.Some? {
        return Ok(if entry.value.state == PendingDelete then None else Some(entry.value.item));
      }
      if path in pathToItem {
        return Ok(Some(pathToItem[path]));
      }
      r := AskProvider(path, remote);
      if path in before.overlay {
        DroppedUnseen(before, mid, remote, path);
      }
      RememberedAged(before, mid, Memory(), remote, path);
      AgedTwice(before, mid, Memory());
      SameBelowTwice(before, mid, Memory(), |path|, |path|);
      LearnsTwice(before, mid, Memory(), remote);
      RemembersTwice(before, mid, Memory());
    }

    /** The rest of `_item_for_path`, when memory has nothing about `path`. */
    method AskProvider(path: Path, remote: Remote) returns (r: Result<Option<Item>>)
      requires SpoolOk(stranded) && path !in overlay && path !in pathToItem
      modifies `overlay, `pathToItem, `hidden, `stranded, `disk, `unlinks
      ensures SpoolOk(stranded) && Shrinks(old(disk), disk)
      ensures r == Resolve(old(Memory()), remote, path)
      ensures Aged(old(Memory()), Memory()) && SameBelow(old(Memory()), Memory(), |path|)
      ensures LearnsFrom(old(Memory()), Memory(), remote) && Remembers(old(Memory()), Memory())
      ensures Remembered(old(Memory()), Memory(), remote, path)
      decreases |path|, 0
    {
      hide SpoolOk, CopiesOf, ListedAt, Shrinks, Aged, SameBelow, LearnsFrom, Remembers;
      ghost var before := Memory();
      LookedAtNothing(before, remote, path);
      ghost var d := disk;
      ShrinksNot(d);
      if path == [] {
        if remote.root.Err? {
          return Err(remote.root.error);
        }
        pathToItem := pathToItem[path := remote.root.value];
        RootLearned(before, Memory(), remote);
        return Ok(Some(remote.root.value));
      }
      var parent := ItemForPath(Parent(path), remote);
      ghost var mid, d1 := Memory(), disk;
      SameBelowDeeper(before, mid, |path| - 1, |path|);
      if parent.Err? {
        return Err(parent.error);
      }
      if parent.value.None? || !parent.value.value.isFolder {
        return Ok(None);
      }
      var listing := remote.listing(parent.value.value.id);
      if listing.Err? {
        return Err(listing.error);
      }
      AgedLastMatch(before, mid, Parent(path), Base(path), listing.value);
      AgedUncoveredItems(before, mid, Parent(path), listing.value);
      var result := LearnChildren(Parent(path), Base(path), listing.value);
      LearnsListing(before, mid, Memory(), remote, Parent(path), parent.value.value, listing.value);
      RemembersTwice(before, mid, Memory());
      AgedTwice(before, mid, Memory());
      SameBelowTwice(before, mid, Memory(), |path|, |path| - 1);
      ShrinksTwice(d, d1, disk);
      return Ok(result);
    }

    // ---------------------------------------------------------------- list

    /** `_overlay_children` */
    method OverlayChildren(folder: Path) returns (children: Overlay)
      requires SpoolOk(stranded)
      modifies `overlay, `pathToItem, `stranded, `disk, `unlinks
      ensures SpoolOk(stranded) && Shrinks(old(disk), disk)
      ensures children == ChildrenOf(old(overlay), now, folder)
      ensures overlay == old(overlay) - ExpiredChildren(old(overlay), now, folder)
      ensures pathToItem == old(pathToItem) - ExpiredChildren(old(overlay), now, folder)
    {
      hide SpoolOk, CopiesOf, Aged, SameBelow, LearnsFrom, Remembers, Shrinks, Gathered, ChildrenOf, ExpiredChildren, ForgetsOnly;
      children := map[];
      ghost var o, pti, d := overlay, pathToItem, disk;
      ShrinksNot(d);
      GatheredNothing(o, pti, now, folder);
      var rest := overlay.Keys;
      while rest != {}
        invariant SpoolOk(stranded) && Shrinks(d, disk) && rest <= o.Keys
        invariant Gathered(o, overlay, pti, pathToItem, children, now, folder, rest)
        decreases rest
      {
        var path :| path in rest;
        GatheredOneMore(o, overlay, pti, pathToItem, children, now, folder, rest, path);
        if Parent(path) == folder {
          ghost var d' := disk;
          var entry := EntryAt(path);
          ShrinksTwice(d, d', disk);
          if entry.Some? {
            children := children[path := entry.value];
          }
        }
        rest := rest - {path};
      }
      GatheredAll(o, overlay, pti, pathToItem, children, now, folder);
    }

    /** The item of a path goes into memory, its metadata into the cache. */
    method Remember(path: Path, item: Item, metadata: Metadata)
      modifies `pathToItem, cache
      ensures pathToItem == old(pathToItem)[path := item]
      ensures cache.rows == CachePut(old(cache.rows), metadata, now + cache.ttl)
    {
      pathToItem := pathToItem[path := item];
      cache.Put(metadata, now);
    }

    /** One listed object: hidden, covered by the overlay, settling an upload, or plainly remote. */
    method MergeItem(ghost b: Before, folder: Path, item: Item, covered: Overlay) returns (passes: bool)
      requires SpoolOk(stranded)
      requires b.folder == folder && b.now == now && HiddenPruned(b.hidden, hidden, now)
      modifies `overlay, `pathToItem, `hidden, `stranded, `disk, `unlinks
      ensures SpoolOk(stranded) && Shrinks(old(disk), disk)
      ensures HiddenPruned(b.hidden, hidden, now)
      ensures passes == Passes(b, covered, item)
      ensures var settled := if passes && Join(folder, item.name) in covered then {Join(folder, item.name)} else {};
        overlay == old(overlay) - settled && pathToItem == old(pathToItem) - settled
    {
      hide SpoolOk, CopiesOf;
      var childPath := Join(folder, item.name);
      var hides := IsHiddenRemoteId(item.id);
      if hides {
        return false;
      }
      if childPath !in covered {
        return true;
      }
      var entry := covered[childPath];
      if entry.state == PendingDelete {
        return false;
      }
      if entry.state == Uploaded && Some(item.id) == entry.remoteId && Some(item.size) == entry.metadata.size {
        DropEntry(childPath);
        return true;
      }
      return false;
    }

    /** One turn of the first loop of `list`. */
    method MergeTurn(ghost b: Before, ghost m: Merge, folder: Path, item: Item, output: seq<Metadata>, covered: Overlay,
                     ghost o0: Overlay, ghost pti0: map<Path, Item>, ghost rows0: map<Path, MetadataCache.Row>)
      returns (output': seq<Metadata>, covered': Overlay)
      requires SpoolOk(stranded)
      requires b.folder == folder && b.now == now && HiddenPruned(b.hidden, hidden, now)
      requires m.output == output && m.children == covered
      requires Merged(b, m, o0, overlay, pti0, pathToItem, rows0, cache.rows, now + cache.ttl)
      modifies `overlay, `pathToItem, `hidden, `stranded, `disk, `unlinks, cache
      ensures SpoolOk(stranded) && Shrinks(old(disk), disk)
      ensures HiddenPruned(b.hidden, hidden, now)
      ensures output' == MergeOne(b, m, item).output && covered' == MergeOne(b, m, item).children
      ensures Merged(b, MergeOne(b, m, item), o0, overlay, pti0, pathToItem, rows0, cache.rows, now + cache.ttl)
    {
      hide SpoolOk, CopiesOf, WeakETag, MetadataCache.Encode, Passes, HiddenPruned, Merged, CachePut, ToMetadata;
      output', covered' := output, covered;
      var childPath := Join(folder, item.name);
      ghost var settled := if Passes(b, covered, item) && childPath in covered then {childPath} else {};
      MergedOneMore(b, m, item, settled, o0, overlay, pti0, pathToItem, rows0, cache.rows, now + cache.ttl);
      var passes := MergeItem(b, folder, item, covered);
      if passes {
        covered' := covered - {childPath};
        var metadata := ToMetadata(item, childPath);
        Remember(childPath, item, metadata);
        output' := output + [metadata];
      }
    }

    /** The first loop of `list`. */
    method MergeRemote(ghost b: Before, folder: Path, items: seq<Item>, children: Overlay)
      returns (output: seq<Metadata>, covered: Overlay)
      requires SpoolOk(stranded)
      requires b == Before(folder, children, hidden, now)
      modifies `overlay, `pathToItem, `hidden, `stranded, `disk, `unlinks, cache
      ensures SpoolOk(stranded) && Shrinks(old(disk), disk)
      ensures HiddenPruned(old(hidden), hidden, now)
      ensures output == MergeListing(b, items).output && covered == MergeListing(b, items).children
      ensures overlay == old(overlay) - (children.Keys - covered.Keys)
      ensures pathToItem == old(pathToItem) + MergeListing(b, items).found
      ensures CachedAll(old(cache.rows), cache.rows, output, now + cache.ttl)
    {
      hide SpoolOk, CopiesOf, HiddenPruned, MergeOne, Passes, ToMetadata, MetadataCache.Encode, Merged, CachedAll, Shrinks;
      NothingForgotten(hidden, now);
      output, covered := [], children;
      ghost var m := Merge([], children, map[]);
      ghost var o, pti, rows, d, exp := overlay, pathToItem, cache.rows, disk, now + cache.ttl;
      ShrinksNot(d);
      NothingMerged(b, o, pti, rows, exp);
      for i := 0 to |items|
        invariant SpoolOk(stranded) && Shrinks(d, disk)
        invariant HiddenPruned(b.hidden, hidden, now)
        invariant m == MergeListing(b, items[..i]) && output == m.output && covered == m.children
        invariant Merged(b, m, o, overlay, pti, pathToItem, rows, cache.rows, exp)
      {
        assert items[..i + 1][..i] == items[..i];
        ghost var d' := disk;
        output, covered := MergeTurn(b, m, folder, items[i], output, covered, o, pti, rows);
        ShrinksTwice(d, d', disk);
        m := MergeOne(b, m, items[i]);
      }
      assert items[..|items|] == items;
      WhatMergedMeans(b, m, o, overlay, pti, pathToItem, rows, cache.rows, exp);
    }

    /** One turn of the second loop of `list`. */
    method EmitTurn(ghost m: Merge, ghost order: seq<Path>, path: Path, entry: Entry, coveredPaths: set<Path>,
                    output: seq<Metadata>, ghost rows0: map<Path, MetadataCache.Row>, ghost pti0: map<Path, Item>)
      returns (output': seq<Metadata>, ghost order': seq<Path>)
      requires path in m.children && m.children[path] == entry
      requires forall q :: q in order ==> q in m.children
      requires Learned(pti0, pathToItem, m.children, order)
      requires CachedAll(rows0, cache.rows, output, now + cache.ttl)
      modifies `pathToItem, cache
      ensures order' == order + if path !in coveredPaths && path in Waiting(m) then [path] else []
      ensures forall q :: q in order' ==> q in m.children
      ensures output' == output + (if order' == order then [] else [entry.metadata])
      ensures OverlayPart(m, order') == OverlayPart(m, order) + (if order' == order then [] else [entry.metadata])
      ensures Learned(pti0, pathToItem, m.children, order')
      ensures CachedAll(rows0, cache.rows, output', now + cache.ttl)
    {
      hide MetadataCache.Encode, Learned, CachedAll, CachePut;
      output', order' := output, order;
      if path !in coveredPaths && entry.state != PendingDelete {
        EmitOne(m, order, path, rows0, cache.rows, output, now + cache.ttl);
        LearnedOneMore(pti0, pathToItem, m.children, order, path);
        Remember(path, entry.item, entry.metadata);
        output' := output + [entry.metadata];
        order' := order + [path];
      }
    }

    /** The second loop of `list`: what the overlay still covers is shown from the overlay. */
    method EmitWaiting(ghost m: Merge, children: Overlay, coveredPaths: set<Path>, output: seq<Metadata>,
                       ghost rows0: map<Path, MetadataCache.Row>)
      returns (output': seq<Metadata>, ghost order: seq<Path>)
      requires m.children == children && coveredPaths !! children.Keys
      requires CachedAll(rows0, cache.rows, output, now + cache.ttl)
      modifies `pathToItem, cache
      ensures Enumerates(order, Waiting(m)) && output' == output + OverlayPart(m, order)
      ensures pathToItem == old(pathToItem) + WaitingItems(m)
      ensures CachedAll(rows0, cache.rows, output', now + cache.ttl)
    {
      hide MetadataCache.Encode, Learned, Enumerates, CachedAll;
      output', order := output, [];
      LearnedNothing(pathToItem, m.children);
      EnumeratesNothing(m);
      var rest := children.Keys;
      ghost var pti := pathToItem;
      while rest != {}
        invariant rest <= children.Keys
        invariant forall p :: p in order ==> p in m.children
        invariant Enumerates(order, Waiting(m) - rest)
        invariant output' == output + OverlayPart(m, order)
        invariant Learned(pti, pathToItem, m.children, order)
        invariant CachedAll(rows0, cache.rows, output', now + cache.ttl)
        decreases rest
      {
        var childPath :| childPath in rest;
        EnumeratesOneMore(m, order, rest, childPath);
        output', order := EmitTurn(m, order, childPath, children[childPath], coveredPaths, output', rows0, pti);
        rest := rest - {childPath};
      }
      assert Waiting(m) - rest == Waiting(m);
      LearnedAll(pti, pathToItem, m, order);
    }

    /** One tombstone of the sweep: settled means trashed and not listed any more. */
    method SettleOne(path: Path, folder: Path, listed: set<string>) returns (drops: bool)
      requires SpoolOk(stranded) && path in overlay
      modifies `overlay, `pathToItem, `hidden, `stranded, `disk, `unlinks
      ensures SpoolOk(stranded) && Shrinks(old(disk), disk)
      ensures drops == (path in Settled(old(overlay), folder, listed))
      ensures overlay == (if drops then old(overlay) - {path} else old(overlay))
      ensures pathToItem == (if drops then old(pathToItem) - {path} else old(pathToItem))
      ensures hidden == if drops && old(overlay)[path].remoteId.Some?
                        then old(hidden) - {old(overlay)[path].remoteId.value} else old(hidden)
    {
      hide SpoolOk, CopiesOf;
      var entry := overlay[path];
      if Parent(path) != folder || entry.state != PendingDelete || !entry.remoteDeleted {
        return false;
      }
      if entry.remoteId.Some? && entry.remoteId.value in listed {
        return false;
      }
      DropEntry(path);
      if entry.remoteId.Some? {
        hidden := hidden - {entry.remoteId.value};
      }
      return true;
    }

    /** `_sweep_settled_tombstones` */
    method SweepSettledTombstones(folder: Path, listed: set<string>)
      requires SpoolOk(stranded)
      modifies `overlay, `pathToItem, `hidden, `stranded, `disk, `unlinks
      ensures SpoolOk(stranded) && Shrinks(old(disk), disk)
      ensures overlay == old(overlay) - Settled(old(overlay), folder, listed)
      ensures pathToItem == old(pathToItem) - Settled(old(overlay), folder, listed)
      ensures hidden == old(hidden) - SettledIds(old(overlay), folder, listed)
    {
      hide SpoolOk, CopiesOf, Shrinks, Swept, Settled, SettledIds;
      var rest := overlay.Keys;
      ghost var o, pti, h, d := overlay, pathToItem, hidden, disk;
      ghost var settled := Settled(o, folder, listed);
      ShrinksNot(d);
      SettledHere(o, folder, listed);
      SweptNothing(o, pti, h, settled);
      while rest != {}
        invariant SpoolOk(stranded) && Shrinks(d, disk) && rest <= o.Keys
        invariant Swept(o, overlay, pti, pathToItem, h, hidden, settled - rest)
        decreases rest
      {
        var path :| path in rest;
        ghost var d' := disk;
        SweptOneMore(o, overlay, pti, pathToItem, h, hidden, settled, rest, path);
        SettledStill(o, overlay, folder, listed, path);
        var _ := SettleOne(path, folder, listed);
        ShrinksTwice(d, d', disk);
        rest := rest - {path};
      }
      SweptAll(o, overlay, pti, pathToItem, h, hidden, folder, listed);
    }

    /** `_list_folder`, up to its first loop. */
    method MergeFolder(folder: Path, items: seq<Item>) returns (remote: seq<Metadata>, covered: Overlay, ghost b: Before)
      requires SpoolOk(stranded)
      modifies `overlay, `pathToItem, `hidden, `stranded, `disk, `unlinks, cache
      ensures SpoolOk(stranded) && Shrinks(old(disk), disk)
      ensures b == Before(folder, ChildrenOf(old(overlay), now, folder), old(hidden), now)
      ensures remote == MergeListing(b, items).output && covered == MergeListing(b, items).children
      ensures overlay == old(overlay) - ExpiredChildren(old(overlay), now, folder) - (b.children.Keys - covered.Keys)
      ensures pathToItem == old(pathToItem) - ExpiredChildren(old(overlay), now, folder) + MergeListing(b, items).found
      ensures HiddenPruned(old(hidden), hidden, now) && CachedAll(old(cache.rows), cache.rows, remote, now + cache.ttl)
    {
      hide SpoolOk, CopiesOf, MetadataCache.Encode, HiddenPruned, CachedAll, ChildrenOf, ExpiredChildren, Shrinks;
      ghost var d := disk;
      var children := OverlayChildren(folder);
      ghost var d1 := disk;
      b := Before(folder, children, hidden, now);
      remote, covered := MergeRemote(b, folder, items, children);
      ShrinksTwice(d, d1, disk);
    }

    /** `list`, once the folder is known and its listing has arrived. */
    method ListFolder(folder: Path, items: seq<Item>)
      returns (output: seq<Metadata>, ghost b: Before, ghost order: seq<Path>)
      requires SpoolOk(stranded) && LedgerOk()
      modifies `overlay, `pathToItem, `hidden, `stranded, `disk, `unlinks, `settled, cache
      ensures SpoolOk(stranded) && LedgerOk() && Shrinks(old(disk), disk)
      ensures b == Before(folder, ChildrenOf(old(overlay), now, folder), old(hidden), now)
      ensures Enumerates(order, Waiting(MergeListing(b, items))) && output == ListOutput(b, items, order)
      ensures overlay == OverlayAfterList(old(overlay), b, items)
      ensures pathToItem == MemoryAfterList(old(pathToItem), old(overlay), b, items)
      ensures HiddenAfterList(old(hidden), hidden, b, items)
      ensures settled == old(settled) + SettledIds(b.children, folder, Ids(items))
      ensures CachedAll(old(cache.rows), cache.rows, output, now + cache.ttl)
    {
      hide SpoolOk, PromisesKept, CopiesOf, MetadataCache.Encode, HiddenPruned, HiddenAfterList, Enumerates,
           CachedAll, ChildrenOf, ExpiredChildren, Settled, SettledIds, Ids, Waiting, Shrinks, PathsOf, WaitingItems;
      ghost var d := disk;
      var remote, covered;
      remote, covered, b := MergeFolder(folder, items);
      ghost var d1, h := disk, hidden;
      ghost var m := MergeListing(b, items);
      var coveredPaths := PathsOf(remote);
      EmittedAreUncovered(b, items);
      output, order := EmitWaiting(m, covered, coveredPaths, remote, old(cache.rows));
      SettledUntouched(old(overlay), b, items);
      SweepSettledTombstones(folder, Ids(items));
      ShrinksTwice(d, d1, disk);
      HiddenThenSwept(old(hidden), h, b, items);
      settled := settled + SettledIds(b.children, folder, Ids(items));
      LedgerAfterList(old(hidden), hidden, b, items, deletedUntil, old(settled));
    }

    // ---------------------------------------------------------------- upload

    /** The parent and target lookups of `upload`. */
    method PrepareUpload(path: Path, overwrite: bool, remote: Remote)
      returns (r: Result<(string, Option<string>)>, ghost seen: View)
      requires SpoolOk(stranded)
      modifies `overlay, `pathToItem, `hidden, `stranded, `disk, `unlinks
      ensures SpoolOk(stranded) && Shrinks(old(disk), disk)
      ensures Aged(old(Memory()), Memory())
      ensures LookupEffects(old(Memory()), seen, remote, Parent(path)) && LookupEffects(seen, Memory(), remote, path)
      ensures r == UploadTarget(old(Memory()), seen, remote, path, overwrite)
    {
      hide SpoolOk, CopiesOf, Aged, SameBelow, LearnsFrom, Remembers, Shrinks;
      ghost var before, d := Memory(), disk;
      var parent := ItemForPath(Parent(path), remote);
      seen := Memory();
      ghost var d1 := disk;
      LookedAtNothing(seen, remote, path);
      if parent.Err? {
        return Err(parent.error), seen;
      }
      if parent.value.None? || !parent.value.value.isFolder {
        return Err(NotFound), seen;
      }
      var target := RemoteTargetId(path, overwrite, remote);
      AgedTwice(before, seen, Memory());
      ShrinksTwice(d, d1, disk);
      if target.Err? {
        return Err(target.error), seen;
      }
      return Ok((parent.value.value.id, target.value)), seen;
    }

    /** `_remote_target_id` */
    method RemoteTargetId(path: Path, overwrite: bool, remote: Remote) returns (r: Result<Option<string>>)
      requires SpoolOk(stranded)
      modifies `overlay, `pathToItem, `hidden, `stranded, `disk, `unlinks
      ensures SpoolOk(stranded) && Shrinks(old(disk), disk)
      ensures LookupEffects(old(Memory()), Memory(), remote, path)
      ensures r == TargetOf(old(Memory()), remote, path, overwrite)
    {
      hide SpoolOk, CopiesOf, Aged, SameBelow, Shrinks, LearnsFrom, ForgetsOnly;
      ghost var before, d := Memory(), disk;
      var entry := EntryAt(path);
      ghost var mid, d1 := Memory(), disk;
      LearnsNothing(before, mid, remote);
      if entry.Some? && entry.value.state != PendingDelete {
        return if overwrite then Ok(entry.value.remoteId) else Err(AlreadyExists);
      }
      if path in before.overlay && entry.None? {
        DroppedUnseen(before, mid, remote, path);
      }
      var existing := ItemForPath(path, remote);
      AgedTwice(before, mid, Memory());
      SameBelowTwice(before, mid, Memory(), |path|, |path|);
      LearnsTwice(before, mid, Memory(), remote);
      RemembersTwice(before, mid, Memory());
      ShrinksTwice(d, d1, disk);
      if existing.Err? {
        return Err(existing.error);
      }
      if existing.value.None? || existing.value.value.isFolder {
        return Ok(None);
      }
      return if overwrite then Ok(Some(existing.value.value.id)) else Err(AlreadyExists);
    }

    /** The provider takes an upload: in place under `target`, or as a new object with a fresh id. */
    method ProviderUpload(folderId: string, name: string, source: Bytes, target: Option<string>, answer: UploadAnswer)
      returns (r: Result<Item>)
      modifies `provider
      ensures provider == ProviderAfter(old(provider), target, answer, RemoteFile(folderId, name, source))
      ensures r == if answer.Accepted? then Ok(UploadedItem(folderId, name, |source|, target, answer)) else Err(answer.error)
      ensures r.Ok? ==> !r.value.isFolder && (answer.disclosed ==> r.value.id == ObjectId(target, answer))
    {
      match answer
      case Refused(error) =>
        r := Err(error);
      case Lost(_, error) =>
        provider := provider[ObjectId(target, answer) := RemoteFile(folderId, name, source)];
        r := Err(error);
      case Accepted(_, _, _, _) =>
        provider := provider[ObjectId(target, answer) := RemoteFile(folderId, name, source)];
        r := Ok(UploadedItem(folderId, name, |source|, target, answer));
    }

    /** These lookups, at any moment between operations. */
    method FindTarget(path: Path, overwrite: bool, remote: Remote)
      returns (r: Result<(string, Option<string>)>, ghost seen: View)
      requires Valid()
      modifies `overlay, `pathToItem, `hidden, `stranded, `disk, `unlinks
      ensures Valid() && Shrinks(old(disk), disk)
      ensures Aged(old(Memory()), Memory()) && Pruned(old(overlay), overlay, now)
      ensures LookupEffects(old(Memory()), seen, remote, Parent(path)) && LookupEffects(seen, Memory(), remote, path)
      ensures r == UploadTarget(old(Memory()), seen, remote, path, overwrite)
      ensures CopiesPresent(old(overlay), old(disk), uuids) && CopiesPresent(overlay, disk, uuids)
      ensures old(Faithful(overlay, now, disk, provider)) ==> Faithful(overlay, now, disk, provider)
    {
      hide SpoolOk, CopiesOf, Aged, Pruned, Shrinks, SlotsOk, PromisesKept, Faithful, Thinned, CopiesPresent, UploadTarget, LookupEffects;
      ghost var v, d := Memory(), disk;
      CopiesAreThere();
      r, seen := PrepareUpload(path, overwrite, remote);
      CopiesAreThere();
      LookupKeepsAll(v, Memory(), d, disk, uuids, provider, deletedUntil, settled);
    }

    /** `upload`, once the provider has accepted the bytes. */
    method FinishUpload(path: Path, uploaded: Item, pending: bool, source: Bytes, folderId: string) returns (entry: Entry)
      requires SpoolOk(stranded) && SlotsOk(overlay) && !uploaded.isFolder
      modifies `overlay, `pathToItem, `stranded, `disk, `unlinks, `uuids, `peak, `writes, cache
      ensures SpoolOk(stranded) && SlotsOk(overlay) && old(peak) <= peak
      ensures UploadLanded(old(Memory()), Memory(), path, uploaded, pending, |source|, folderId, now + uploadTtl)
      ensures overlay[path] == entry && ForgetsElsewhere(old(Memory()), Memory(), path)
      ensures OldFilesKept(old(disk), disk, old(uuids)) && old(uuids) <= uuids
      ensures entry.localPath.Some? ==> entry.localPath.value in disk && disk[entry.localPath.value] == source
      ensures cache.rows == CachePut(MetadataCache.Without(old(cache.rows), {Parent(path), path}), entry.metadata, now + cache.ttl)
    {
      hide SpoolOk, CopiesOf, Pruned, SlotsOk, Thinned, OldFilesKept, OnlyCopiesDropped, Expired, IsUploadEntry,
           MetadataCache.Encode, MetadataCache.Lookup, MetadataCache.Without, ToMetadata, HiddenPruned;
      PrunedNothing(overlay, now);
      entry := StoreUploaded(path, uploaded, pending, source, folderId);
      UploadLeavesOthers(old(overlay), old(overlay), overlay, now, path, uploaded, pending, |source|, folderId, now + uploadTtl);
      NothingForgotten(hidden, now);
      cache.Invalidate({Parent(path), path});
      cache.Put(entry.metadata, now);
    }

    /** `upload`. The ghosts report what memory looked like after the folder lookup, and the folder and target found. */
    method Upload(path: Path, source: Bytes, overwrite: bool, remote: Remote, answer: UploadAnswer)
      returns (r: Result<Metadata>, ghost seen: View, ghost folderId: string, ghost target: Option<string>)
      requires Valid() && (!answer.Refused? ==> answer.freshId !in provider)
      modifies `overlay, `pathToItem, `hidden, `stranded, `disk, `unlinks, `uuids, `peak, `writes, `provider, cache
      ensures Valid() && old(peak) <= peak
      ensures LookupEffects(old(Memory()), seen, remote, Parent(path))
      // The lookups and the provider decide the answer. The provider holds the bytes, under the looked-up id or a
      // new one, unless a lookup failed or it refused them, also when its answer was lost.
      ensures match UploadTarget(old(Memory()), seen, remote, path, overwrite)
              case Err(e) => r == Err(e) && provider == old(provider)
              case Ok((folder, replaced)) =>
                && folderId == folder && target == replaced
                && provider == ProviderAfter(old(provider), target, answer, RemoteFile(folderId, Base(path), source))
                && (if answer.Accepted? then r.Ok? else r == Err(answer.error))
      ensures r.Err? ==>
        Pruned(old(overlay), overlay, now) && LookupEffects(seen, Memory(), remote, path) && cache.rows == old(cache.rows)
      // On success the path has a live entry for the object; of the other slots exactly the live ones stay.
      ensures r.Ok? ==>
        && UploadLanded(old(Memory()), Memory(), path, UploadedItem(folderId, Base(path), |source|, target, answer),
                        !answer.disclosed, |source|, folderId, now + uploadTtl)
        && r.value == overlay[path].metadata && LearnsElsewhere(seen, Memory(), remote, path)
        && cache.rows == CachePut(MetadataCache.Without(old(cache.rows), {Parent(path), path}), r.value, now + cache.ttl)
      // An upload to a path tied to an object replaces that object; one over a live tombstone makes a new one.
      ensures r.Ok? && overwrite && path != [] && old(Known(Memory(), path)) ==>
        forall id :: Tied(old(Memory()), path, id) ==> target == Some(id)
      ensures r.Ok? && LiveTombstone(old(overlay), now, path) ==> target == None
      ensures r.Ok? && answer.disclosed ==>
        Tied(Memory(), path, ObjectId(target, answer)) && (uploadTtl > 0 ==> Known(Memory(), path))
      // Whether all live uploads are true to the provider afterwards is decided by the state before the call, and by
      // which copies the eviction pass left: every other live upload of the replaced object must describe the new
      // bytes, and when the answer was lost, so must the one in the slot of the path.
      ensures old(Faithful(overlay, now, disk, provider)) ==>
        (Faithful(overlay, now, disk, provider) <==>
           (UploadTarget(old(Memory()), seen, remote, path, overwrite).Ok? && !answer.Refused? ==>
              Spares(old(overlay), now, old(disk), if r.Ok? then Some(path) else None, ObjectId(target, answer), source,
                     KeptCopies(overlay))))
    {
      hide SpoolOk, CopiesOf, Aged, Pruned, Shrinks, SlotsOk, PromisesKept, Faithful, CopiesPresent, Spares, KeptCopies, UploadTarget,
           LearnsElsewhere, Tied, Known, UploadLanded, UploadedItem, MetadataCache.Without, LiveTombstone, Live, LookupEffects,
           ProviderAfter, ObjectId, CachePut;
      ghost var v, d := Memory(), disk;
      var prepared;
      prepared, seen := FindTarget(path, overwrite, remote);
      if prepared.Err? {
        return Err(prepared.error), seen, "", None;
      }
      folderId, target := prepared.value.0, prepared.value.1;
      SeenTarget(v, seen, remote, path, overwrite, folderId, target);
      r := UploadTo(path, source, remote, prepared.value.0, prepared.value.1, answer, v, seen, d);
    }

    /** The rest of `upload`, once its target is known. `v` and `d` are memory and the disk before its lookups. */
    method UploadTo(path: Path, source: Bytes, ghost remote: Remote, folderId: string, target: Option<string>,
                    answer: UploadAnswer, ghost v: View, ghost seen: View, ghost d: Disk)
      returns (r: Result<Metadata>)
      requires Valid()
      requires v.now == now && Aged(v, Memory()) && LookupEffects(seen, Memory(), remote, path) && Shrinks(d, disk)
      requires CopiesPresent(v.overlay, d, uuids) && CopiesPresent(overlay, disk, uuids)
      requires Faithful(v.overlay, now, d, provider) ==> Faithful(overlay, now, disk, provider)
      modifies `overlay, `pathToItem, `stranded, `disk, `unlinks, `uuids, `peak, `writes, `provider, cache
      ensures Valid() && old(peak) <= peak
      ensures provider == ProviderAfter(old(provider), target, answer, RemoteFile(folderId, Base(path), source))
      ensures if answer.Accepted? then r.Ok? else r == Err(answer.error)
      ensures r.Err? ==> Memory() == old(Memory()) && cache.rows == old(cache.rows)
      ensures r.Ok? ==>
        && UploadLanded(v, Memory(), path, UploadedItem(folderId, Base(path), |source|, target, answer),
                        !answer.disclosed, |source|, folderId, now + uploadTtl)
        && r.value == overlay[path].metadata && LearnsElsewhere(seen, Memory(), remote, path)
        && cache.rows == CachePut(MetadataCache.Without(old(cache.rows), {Parent(path), path}), r.value, now + cache.ttl)
      ensures r.Ok? && answer.disclosed ==>
        Tied(Memory(), path, ObjectId(target, answer)) && (uploadTtl > 0 ==> Known(Memory(), path))
      ensures old(Faithful(v.overlay, now, d, provider)) ==>
        (Faithful(overlay, now, disk, provider) <==>
           (!answer.Refused? ==>
              Spares(v.overlay, now, d, if r.Ok? then Some(path) else None, ObjectId(target, answer), source, KeptCopies(overlay))))
    {
      hide SpoolOk, CopiesOf, Aged, Pruned, HiddenPruned, Shrinks, SlotsOk, PromisesKept, Faithful, LookupEffects,
           OldFilesKept, CopiesPresent, Spares, KeptCopies, LearnsElsewhere, ForgetsElsewhere, Tied, Known, UploadLanded,
           UploadedItem, MetadataCache.Without, ProviderAfter, ObjectId, CachePut;
      ghost var v1, d1 := Memory(), disk;
      WhatProviderAfter(provider, target, answer, RemoteFile(folderId, Base(path), source));
      var uploaded := ProviderUpload(folderId, Base(path), source, target, answer);
      if uploaded.Err? {
        if answer.Lost? {
          LostUploadOutcome(v, v1, d, d1, uuids, old(provider), ObjectId(target, answer), RemoteFile(folderId, Base(path), source));
        }
        return Err(uploaded.error);
      }
      var entry := FinishUpload(path, uploaded.value, !answer.disclosed, source, folderId);
      CopiesAreThere();
      UploadDone(v, seen, v1, Memory(), remote, d, d1, disk, old(uuids), uuids, old(provider), path, folderId, source, target, answer,
                 now + uploadTtl);
      r := Ok(entry.metadata);
    }

    // ---------------------------------------------------------------- list, get_metadata, open_read

    /** `list` with its folder known, and what it keeps. */
    method ListLoaded(path: Path, items: seq<Item>) returns (output: seq<Metadata>, ghost b: Before, ghost order: seq<Path>)
      requires Valid()
      modifies `overlay, `pathToItem, `hidden, `stranded, `disk, `unlinks, `settled, cache
      ensures Valid()
      ensures ListedFrom(old(Memory()), Memory(), path, items, b, order, output)
      ensures CachedAll(old(cache.rows), cache.rows, output, now + cache.ttl)
      ensures settled == old(settled) + SettledIds(b.children, path, Ids(items))
      ensures NoneEmitted(old(deletedUntil), old(settled), b, items)
      ensures old(Faithful(overlay, now, disk, provider)) ==> Faithful(overlay, now, disk, provider)
    {
      hide SpoolOk, CopiesOf, Shrinks, SlotsOk, PromisesKept, Faithful, CopiesPresent, MetadataCache.Encode, MetadataCache.Lookup,
           CachedAll, Enumerates, ChildrenOf, SettledIds, Ids, NoneEmitted, Keyed, HiddenAfterList, OverlayAfterList,
           MemoryAfterList, Waiting;
      ghost var o, d, h := overlay, disk, hidden;
      CopiesAreThere();
      output, b, order := ListFolder(path, items);
      CopiesAreThere();
      ListKeepsAll(o, d, disk, uuids, provider, b, items);
      PromisedNotEmitted(h, deletedUntil, old(settled), b, items);
    }

    /** `list`. The ghosts report what memory looked like when the listing arrived, the listing, and the
        order in which the overlay's own children came out. */
    method List(path: Path, remote: Remote)
      returns (r: Result<seq<Metadata>>, ghost seen: View, ghost b: Before, ghost items: seq<Item>, ghost order: seq<Path>)
      requires Valid()
      modifies `overlay, `pathToItem, `hidden, `stranded, `disk, `unlinks, `settled, cache
      ensures Valid()
      ensures LookupEffects(old(Memory()), seen, remote, path)
      ensures match FolderItems(old(Memory()), remote, path)
              case Err(e) => r == Err(e)
              case Ok(listing) => r.Ok? && items == listing
      ensures r.Err? ==> Memory() == seen && settled == old(settled) && cache.rows == old(cache.rows)
      ensures r.Ok? ==>
        && ListedFrom(seen, Memory(), path, items, b, order, r.value)
        && CachedAll(old(cache.rows), cache.rows, r.value, now + cache.ttl)
        && settled == old(settled) + SettledIds(b.children, path, Ids(items))
      // No object whose delete was accepted comes out of the listing before its time, unless an earlier list
      // lifted that.
      ensures r.Ok? ==> NoneEmitted(old(deletedUntil), old(settled), b, items)
      ensures old(Faithful(overlay, now, disk, provider)) ==> Faithful(overlay, now, disk, provider)
    {
      hide SpoolOk, CopiesOf, SlotsOk, PromisesKept, Faithful, CachedAll, SettledIds, Ids, NoneEmitted, ListedFrom, LookupEffects;
      b, items, order := Before(path, map[], map[], now), [], [];
      var folder := LookUp(path, remote);
      seen := Memory();
      if folder.Err? {
        return Err(folder.error), seen, b, items, order;
      }
      if folder.value.None? || !folder.value.value.isFolder {
        return Err(NotFound), seen, b, items, order;
      }
      var listing := remote.listing(folder.value.value.id);
      if listing.Err? {
        return Err(listing.error), seen, b, items, order;
      }
      items := listing.value;
      var output;
      output, b, order := ListLoaded(path, listing.value);
      r := Ok(output);
    }

    /** A lookup with everything it keeps. */
    method LookUp(path: Path, remote: Remote) returns (r: Result<Option<Item>>)
      requires Valid()
      modifies `overlay, `pathToItem, `hidden, `stranded, `disk, `unlinks
      ensures Valid()
      ensures r == Resolve(old(Memory()), remote, path)
      ensures LookupEffects(old(Memory()), Memory(), remote, path) && Remembered(old(Memory()), Memory(), remote, path)
      ensures old(Faithful(overlay, now, disk, provider)) ==> Faithful(overlay, now, disk, provider)
    {
      hide SpoolOk, CopiesOf, Aged, SameBelow, LearnsFrom, Remembers, Pruned, HiddenPruned, Shrinks, SlotsOk, PromisesKept, Faithful, Thinned,
           CopiesPresent, Remembered;
      CopiesAreThere();
      r := ItemForPath(path, remote);
      CopiesAreThere();
      LookupKeepsAll(old(Memory()), Memory(), old(disk), disk, uuids, provider, deletedUntil, settled);
    }

    /** `_entry` with everything it keeps. */
    method LiveEntry(path: Path, ghost remote: Remote) returns (entry: Option<Entry>)
      requires Valid()
      modifies `overlay, `pathToItem, `stranded, `disk, `unlinks
      ensures Valid()
      ensures entry == if Live(old(overlay), now, path) then Some(old(overlay)[path]) else None
      ensures entry.None? ==> path !in overlay
      ensures entry.Some? ==> Memory() == old(Memory())
      ensures Shrinks(old(disk), disk) && LookupEffects(old(Memory()), Memory(), remote, path)
      ensures forall p :: Resolve(Memory(), remote, p) == Resolve(old(Memory()), remote, p)
      ensures ForgetsOnly(old(Memory()), Memory())
      ensures old(Faithful(overlay, now, disk, provider)) ==> Faithful(overlay, now, disk, provider)
    {
      hide SpoolOk, CopiesOf, Aged, SameBelow, LearnsFrom, Remembers, Pruned, HiddenPruned, Shrinks, SlotsOk, PromisesKept, Faithful, Thinned,
           CopiesPresent;
      ghost var before := Memory();
      CopiesAreThere();
      entry := EntryAt(path);
      CopiesAreThere();
      LookupKeepsAll(before, Memory(), old(disk), disk, uuids, provider, deletedUntil, settled);
      LearnsNothing(before, Memory(), remote);
      if path in before.overlay && entry.None? {
        DroppedUnseen(before, Memory(), remote, path);
      }
    }

    /** `get_metadata` */
    method GetMetadata(path: Path, remote: Remote) returns (r: Result<Option<Metadata>>)
      requires Valid()
      modifies `overlay, `pathToItem, `hidden, `stranded, `disk, `unlinks, cache
      ensures Valid()
      ensures r == MetadataAt(old(Memory()), old(cache.rows), remote, path)
      ensures LookupEffects(old(Memory()), Memory(), remote, path)
      ensures cache.rows == RowsAfterLook(old(Memory()), old(cache.rows), remote, path, cache.ttl, cache.negativeTtl)
      ensures r == Ok(None) ==> !HasCopy(overlay, path)
      ensures old(Faithful(overlay, now, disk, provider)) ==> Faithful(overlay, now, disk, provider)
    {
      hide SpoolOk, CopiesOf, SlotsOk, PromisesKept, Faithful, Aged, SameBelow, LearnsFrom, Remembers, MetadataCache.Encode,
           MetadataCache.Lookup, ToMetadata, Thinned, MetadataAt, RowsAfterLook;
      ghost var before := Memory();
      LookCases(before, cache.rows, remote, path, cache.ttl, cache.negativeTtl);
      var entry := LiveEntry(path, remote);
      ghost var mid := Memory();
      if entry.Some? {
        if entry.value.state == PendingDelete {
          TombstoneIsBare(overlay, path);
        }
        return Ok(if entry.value.state == PendingDelete then None else Some(entry.value.metadata));
      }
      var cached := cache.Get(path, now);
      if cached.Some? {
        return Ok(cached);
      }
      r := LookAndCache(path, remote);
      AgedTwice(before, mid, Memory());
      SameBelowTwice(before, mid, Memory(), |path|, |path|);
      LearnsTwice(before, mid, Memory(), remote);
      RemembersTwice(before, mid, Memory());
    }

    /** The end of `get_metadata`, when neither overlay nor cache have the path. */
    method LookAndCache(path: Path, remote: Remote) returns (r: Result<Option<Metadata>>)
      requires Valid() && path !in overlay
      modifies `overlay, `pathToItem, `hidden, `stranded, `disk, `unlinks, cache
      ensures Valid() && path !in overlay
      ensures r == Described(Resolve(old(Memory()), remote, path), path)
      ensures LookupEffects(old(Memory()), Memory(), remote, path)
      ensures cache.rows == Cached(Resolve(old(Memory()), remote, path), path, old(cache.rows), now, cache.ttl, cache.negativeTtl)
      ensures old(Faithful(overlay, now, disk, provider)) ==> Faithful(overlay, now, disk, provider)
    {
      hide SpoolOk, CopiesOf, SlotsOk, PromisesKept, Faithful, SameBelow, LearnsFrom, Remembers, MetadataCache.Encode,
           MetadataCache.Lookup, ToMetadata;
      var item := LookUp(path, remote);
      if item.Err? {
        return Err(item.error);
      }
      if item.value.None? {
        cache.PutNegative(path, now);
        return Ok(None);
      }
      var metadata := ToMetadata(item.value.value, path);
      MetadataAtPath(item.value.value, path);
      cache.Put(metadata, now);
      r := Ok(Some(metadata));
    }

    /** `open_read`. The provider serves a download by id. */
    method OpenRead(path: Path, range: Option<ByteRange>, remote: Remote) returns (r: Result<Bytes>)
      requires Valid()
      modifies `overlay, `pathToItem, `hidden, `stranded, `disk, `unlinks
      ensures Valid()
      ensures LookupEffects(old(Memory()), Memory(), remote, path)
      ensures LiveTombstone(old(overlay), now, path) ==> r == Err(NotFound)
      // Whether an upload has its copy or lost it, a read gives the provider's bytes for the uploaded object.
      ensures LiveUpload(old(overlay), now, path) && old(overlay)[path].remoteId.Some? && old(Faithful(overlay, now, disk, provider)) ==>
        var id := old(overlay)[path].remoteId.value;
        && id in provider
        && (Satisfiable(range, |provider[id].bytes|) ==> r == Ok(LocalSlice(provider[id].bytes, range)))
      // A live upload is read from its copy; without one, an empty upload reads as nothing, and any other is downloaded.
      ensures LiveUpload(old(overlay), now, path) ==>
        var e := old(overlay)[path];
        && (e.localPath.Some? ==> e.localPath.value in old(disk) && r == Ok(LocalSlice(old(disk)[e.localPath.value], range)))
        && (e.localPath.None? && (e.metadata.size.None? || e.metadata.size.value == 0) ==> r == Ok([]))
        && (e.localPath.None? && e.metadata.size.Some? && e.metadata.size.value > 0 ==> r == Fetch(provider, e.item, range))
      // Any other path reads whatever object the lookup finds.
      ensures !Live(old(overlay), now, path) ==>
        match Resolve(old(Memory()), remote, path)
        case Err(e) => r == Err(e)
        case Ok(None) => r == Err(NotFound)
        case Ok(Some(item)) => r == if item.isFolder then Err(NotFound) else Fetch(provider, item, range)
      ensures old(Faithful(overlay, now, disk, provider)) ==> Faithful(overlay, now, disk, provider)
    {
      hide SpoolOk, CopiesOf, PromisesKept, Aged, SameBelow, LearnsFrom, Remembers, ToMetadata, Fetch, LocalSlice, Satisfiable;
      ghost var before := Memory();
      var entry := LiveEntry(path, remote);
      ghost var mid := Memory();
      CopiesAreThere();
      assert entry.Some? ==> SlotOk(path, entry.value) && (old(Faithful(overlay, now, disk, provider)) ==> EntryFaithful(entry.value, disk, provider));
      if entry.Some? {
        if entry.value.state == PendingDelete {
          return Err(NotFound);
        }
        if entry.value.localPath.Some? {
          var content := disk[entry.value.localPath.value];
          var chunks := ReadLocalFile(content, range);
          return Ok(Concat(chunks));
        }
        if entry.value.remoteId.Some? && EntryFaithful(entry.value, disk, provider)
           && Satisfiable(range, |provider[entry.value.remoteId.value].bytes|) {
          UploadFetched(entry.value, path, disk, provider, range);
        }
        if AccountedSize(entry.value) == 0 {
          return Ok([]);
        }
        return Fetch(provider, entry.value.item, range);
      }
      var item := LookUp(path, remote);
      AgedTwice(before, mid, Memory());
      SameBelowTwice(before, mid, Memory(), |path|, |path|);
      LearnsTwice(before, mid, Memory(), remote);
      RemembersTwice(before, mid, Memory());
      if item.Err? {
        return Err(item.error);
      }
      if item.value.None? || item.value.value.isFolder {
        return Err(NotFound);
      }
      return Fetch(provider, item.value.value, range);
    }

    // ---------------------------------------------------------------- delete

    /** `_store_tombstone`; it also records the promise the delete makes. */
    method StoreTombstone(path: Path, item: Item, remoteId: Option<string>)
      requires Valid() && path !in overlay
      modifies `overlay, `pathToItem, `hidden, `deletedUntil, `settled
      ensures Valid()
      ensures overlay == old(overlay)[path := Tombstone(path, item, remoteId, now + tombstoneTtl)]
      ensures pathToItem == old(pathToItem) - {path}
      ensures remoteId.Some? ==> hidden == old(hidden)[remoteId.value := now + tombstoneTtl]
      ensures remoteId.Some? ==> deletedUntil == old(deletedUntil)[remoteId.value := now + tombstoneTtl]
      ensures remoteId.Some? ==> settled == old(settled) - {remoteId.value}
      ensures remoteId.None? ==> hidden == old(hidden) && deletedUntil == old(deletedUntil) && settled == old(settled)
      ensures old(Faithful(overlay, now, disk, provider)) ==> Faithful(overlay, now, disk, provider)
    {
      hide Inv, CopiesOf, SlotsOk, PromisesKept, Faithful, Tombstone, NamesDrawn, PeakBounded;
      PutTombstone(path, item, remoteId);
      if remoteId.Some? {
        PromiseKept(hidden, now, deletedUntil, settled, remoteId.value, now + tombstoneTtl);
        hidden := hidden[remoteId.value := now + tombstoneTtl];
        deletedUntil := deletedUntil[remoteId.value := now + tombstoneTtl];
        settled := settled - {remoteId.value};
      }
    }

    /** Its slot. */
    method PutTombstone(path: Path, item: Item, remoteId: Option<string>)
      requires Valid() && path !in overlay
      modifies `overlay, `pathToItem
      ensures Valid()
      ensures overlay == old(overlay)[path := Tombstone(path, item, remoteId, now + tombstoneTtl)]
      ensures pathToItem == old(pathToItem) - {path}
      ensures old(Faithful(overlay, now, disk, provider)) ==> Faithful(overlay, now, disk, provider)
    {
      hide Inv, CopiesOf, SlotsOk, PromisesKept, Faithful, Tombstone, NamesDrawn, PeakBounded;
      TombstoneKeeps(overlay, path, item, remoteId, now + tombstoneTtl, now, disk, provider);
      overlay := overlay[path := Tombstone(path, item, remoteId, now + tombstoneTtl)];
      pathToItem := pathToItem - {path};
    }

    /** `_drop_entry` with everything it keeps. */
    method ForgetEntryAt(path: Path)
      requires Valid()
      modifies `overlay, `pathToItem, `stranded, `disk, `unlinks
      ensures Valid()
      ensures overlay == old(overlay) - {path} && pathToItem == old(pathToItem) - {path}
      ensures old(Faithful(overlay, now, disk, provider)) ==> Faithful(overlay, now, disk, provider)
    {
      hide SpoolOk, CopiesOf, SlotOk, PromisesKept, Faithful, CopiesPresent, OldFilesKept;
      CopiesAreThere();
      DropEntry(path);
      CopiesAreThere();
      assert Shrinks(old(disk), disk);
      LostEntryStaysFaithful(old(overlay), now, old(disk), disk, uuids, provider, path);
    }

    /** `delete` of a live upload. */
    method DeleteUpload(path: Path, entry: Entry) returns (scheduled: Scheduled)
      requires Valid() && path in overlay && overlay[path] == entry && entry.state == Uploaded
      modifies `overlay, `pathToItem, `hidden, `stranded, `disk, `unlinks, `deletedUntil, `settled, cache
      ensures Valid()
      ensures old(Faithful(overlay, now, disk, provider)) ==> Faithful(overlay, now, disk, provider)
      ensures overlay == old(overlay)[path := Tombstone(path, entry.item, entry.remoteId, now + tombstoneTtl)]
      ensures scheduled == if entry.remoteId.Some? then TrashObject(entry.item) else FindThenTrash(entry)
      ensures entry.remoteId.Some? ==> entry.item.id == entry.remoteId.value && HiddenUntil(entry.item.id, now + tombstoneTtl)
      ensures PromisesAfter(old(deletedUntil), deletedUntil, old(settled), settled, scheduled, now + tombstoneTtl)
      ensures HidesAfter(old(hidden), hidden, now, scheduled) && ForgetsOnly(old(Memory()), Memory())
      ensures path !in pathToItem && cache.rows == MetadataCache.Without(old(cache.rows), {path, Parent(path)})
    {
      hide SpoolOk, CopiesOf, PromisesKept, Faithful, ToMetadata, Tombstone, SlotsOk, Shrinks, MetadataCache.Without;
      SlotIsOk(overlay, path);
      ForgetEntryAt(path);
      cache.Invalidate({path, Parent(path)});
      StoreTombstone(path, entry.item, entry.remoteId);
      scheduled := if entry.remoteId.Some? then TrashObject(entry.item) else FindThenTrash(entry);
    }

    /** The delete of object `id` is recorded, and in force until `expiresAt`. */
    ghost predicate HiddenUntil(id: string, expiresAt: int)
      reads `deletedUntil, `settled, `hidden
    {
      id in deletedUntil && deletedUntil[id] == expiresAt && id !in settled && id in hidden && hidden[id] == expiresAt
    }

    /** The tombstone of a file the overlay said nothing about. */
    method BuryFile(path: Path, item: Item)
      requires Valid() && path !in overlay
      modifies `overlay, `pathToItem, `hidden, `deletedUntil, `settled, cache
      ensures Valid()
      ensures old(Faithful(overlay, now, disk, provider)) ==> Faithful(overlay, now, disk, provider)
      ensures overlay == old(overlay)[path := Tombstone(path, item, Some(item.id), now + tombstoneTtl)]
      ensures HiddenUntil(item.id, now + tombstoneTtl)
      ensures PromisesAfter(old(deletedUntil), deletedUntil, old(settled), settled, TrashObject(item), now + tombstoneTtl)
      ensures HidesAfter(old(hidden), hidden, now, TrashObject(item)) && ForgetsOnly(old(Memory()), Memory())
      ensures path !in pathToItem && cache.rows == MetadataCache.Without(old(cache.rows), {path, Parent(path)})
    {
      hide SpoolOk, SlotsOk, PromisesKept, Faithful, Tombstone, MetadataCache.Without;
      StoreTombstone(path, item, Some(item.id));
      cache.Invalidate({path, Parent(path)});
    }

    /** `delete` of a path the overlay says nothing about. */
    method DeleteFound(path: Path, remote: Remote, trash: Result<()>) returns (r: Result<Scheduled>)
      requires Valid() && path !in overlay
      modifies `overlay, `pathToItem, `hidden, `stranded, `disk, `unlinks, `deletedUntil, `settled, cache
      ensures Valid()
      ensures old(Faithful(overlay, now, disk, provider)) ==> Faithful(overlay, now, disk, provider)
      ensures OnlySlotChanged(old(overlay), overlay, now, path)
      ensures r == DeleteAnswer(old(Memory()), remote, path, trash)
      ensures r.Ok? ==> !r.value.FindThenTrash?
      ensures r.Ok? && r.value.TrashObject? ==>
        && path in overlay
        && overlay[path] == Tombstone(path, r.value.item, Some(r.value.item.id), now + tombstoneTtl)
        && HiddenUntil(r.value.item.id, now + tombstoneTtl)
      ensures r.Ok? ==> BuriedAfter(old(overlay), overlay, now, path, r.value, tombstoneTtl)
      ensures r.Ok? ==> path !in pathToItem && cache.rows == MetadataCache.Without(old(cache.rows), {path, Parent(path)})
      ensures r.Err? ==> Aged(old(Memory()), Memory()) && cache.rows == old(cache.rows)
      ensures TombstonesAfter(old(overlay), overlay, path, Left(r))
      ensures PromisesAfter(old(deletedUntil), deletedUntil, old(settled), settled, Left(r), now + tombstoneTtl)
      ensures HidesAfter(old(hidden), hidden, now, Left(r)) && LearnsFrom(old(Memory()), Memory(), remote)
    {
      hide SpoolOk, CopiesOf, SlotsOk, PromisesKept, Faithful, Aged, SameBelow, LearnsFrom, Remembers, ToMetadata, MetadataCache.Lookup, Thinned,
           OnlySlotChanged, Pruned, TombstonesAfter, Tombstone, HiddenUntil, PromisesAfter, HidesAfter, ForgetsOnly, Resolve, Live,
           BuriedAfter, MetadataCache.Without;
      ghost var before := Memory();
      var found := LookUp(path, remote);
      ghost var mid := Memory();
      NothingPromised(deletedUntil, settled, now + tombstoneTtl);
      LookupLeaves(before, mid, path);
      TombstonesAged(before, mid, path);
      NothingHidden(before, mid);
      BareSlotKept(before, mid, path);
      if found.Err? {
        return Err(found.error);
      }
      if found.value.None? {
        return Err(NotFound);
      }
      var item := found.value.value;
      if item.isFolder {
        if trash.Err? {
          return Err(trash.error);
        }
        pathToItem := pathToItem - {path};
        ForgetsOne(mid, Memory(), path);
        LearnsThenShrinks(before, mid, Memory(), remote);
        NothingBuried(before.overlay, overlay, now, path, tombstoneTtl);
        cache.Invalidate({path, Parent(path)});
        return Ok(Nothing);
      }
      BuryFile(path, item);
      HidesThen(before.hidden, mid.hidden, hidden, now, TrashObject(item));
      LearnsThenShrinks(before, mid, Memory(), remote);
      Buried(before, mid, path, item, Some(item.id), now + tombstoneTtl, TrashObject(item));
      BuriedByTombstone(before.overlay, mid.overlay, now, path, item, Some(item.id), TrashObject(item), tombstoneTtl);
      return Ok(TrashObject(item));
    }

    /** `delete`. `trash` is the provider's answer when a folder is trashed on the spot. */
    method Delete(path: Path, remote: Remote, trash: Result<()>) returns (r: Result<Scheduled>)
      requires Valid()
      modifies `overlay, `pathToItem, `hidden, `stranded, `disk, `unlinks, `deletedUntil, `settled, cache
      ensures Valid()
      ensures old(Faithful(overlay, now, disk, provider)) ==> Faithful(overlay, now, disk, provider)
      ensures OnlySlotChanged(old(overlay), overlay, now, path)
      // What happens depends on what the path is: a tombstone, a live upload, or whatever the lookup finds.
      ensures r == DeleteAnswer(old(Memory()), remote, path, trash)
      ensures LiveTombstone(old(overlay), now, path) ==> overlay == old(overlay)
      // An accepted delete of a known object leaves a tombstone and hides the object for the whole TTL.
      ensures r.Ok? && r.value.TrashObject? ==>
        && path in overlay
        && overlay[path] == Tombstone(path, r.value.item, Some(r.value.item.id), now + tombstoneTtl)
        && HiddenUntil(r.value.item.id, now + tombstoneTtl)
      ensures r.Ok? && r.value.FindThenTrash? ==>
        path in overlay && overlay[path] == Tombstone(path, r.value.entry.item, None, now + tombstoneTtl)
      // The path then has a live tombstone if it had one, or got one that does not end at once.
      ensures r.Ok? ==> BuriedAfter(old(overlay), overlay, now, path, r.value, tombstoneTtl)
      // Memory and cache forget what was deleted, be it a file or a folder. Otherwise nothing but what has expired goes.
      ensures r.Ok? && !old(LiveTombstone(overlay, now, path)) ==>
        path !in pathToItem && cache.rows == MetadataCache.Without(old(cache.rows), {path, Parent(path)})
      ensures old(LiveTombstone(overlay, now, path)) ==> Memory() == old(Memory())
      ensures r.Err? ==> Aged(old(Memory()), Memory())
      ensures r.Err? || old(LiveTombstone(overlay, now, path)) ==> cache.rows == old(cache.rows)
      // No other tombstone appears, and no other promise changes.
      ensures TombstonesAfter(old(overlay), overlay, path, Left(r))
      ensures PromisesAfter(old(deletedUntil), deletedUntil, old(settled), settled, Left(r), now + tombstoneTtl)
      ensures HidesAfter(old(hidden), hidden, now, Left(r)) && LearnsFrom(old(Memory()), Memory(), remote)
    {
      hide SpoolOk, CopiesOf, SlotsOk, PromisesKept, Faithful, Aged, SameBelow, LearnsFrom, Remembers, ToMetadata, MetadataCache.Lookup, Thinned,
           OnlySlotChanged, Pruned, TombstonesAfter, HidesAfter, HiddenPruned, ForgetsOnly, Tombstone, HiddenUntil, Resolve,
           BuriedAfter, MetadataCache.Without;
      ghost var before := Memory();
      var entry := LiveEntry(path, remote);
      ghost var mid := Memory();
      TombstonesAged(before, mid, path);
      NothingHidden(before, mid);
      if entry.Some? {
        if entry.value.state == PendingDelete {
          TombstoneIsBare(overlay, path);
          BareSlotKept(before, Memory(), path);
          StillBuried(before, Memory(), path, tombstoneTtl);
          return Ok(Nothing);
        }
        var scheduled := DeleteUpload(path, entry.value);
        HidesThen(before.hidden, mid.hidden, hidden, now, scheduled);
        LearnsNothing(before, mid, remote);
        LearnsThenShrinks(before, mid, Memory(), remote);
        Buried(before, mid, path, entry.value.item, entry.value.remoteId, now + tombstoneTtl, scheduled);
        BuriedByTombstone(before.overlay, mid.overlay, now, path, entry.value.item, entry.value.remoteId, scheduled, tombstoneTtl);
        return Ok(scheduled);
      }
      r := DeleteFound(path, remote, trash);
      HidesThen(before.hidden, mid.hidden, hidden, now, Left(r));
      LearnsTwice(before, mid, Memory(), remote);
      AgedSlotChange(before, mid, overlay, path);
      TombstonesAlong(before.overlay, mid.overlay, overlay, path, Left(r));
      if r.Ok? {
        BuriedAlong(before, mid, overlay, path, r.value, tombstoneTtl);
      } else {
        AgedTwice(before, mid, Memory());
      }
    }

    // ---------------------------------------------------------------- move

    /** The overlay half of `_move_entry`: the entry changes slots and takes its copy along. */
    method Relocate(src: Path, dst: Path, moved: Entry, ghost parentId: string)
      requires SpoolOk(stranded) && SlotsOk(overlay) && src in overlay && overlay[src].state == Uploaded
      requires src != dst && !HasCopy(overlay, dst) && moved == MovedEntry(overlay[src], dst, parentId)
      modifies `overlay
      ensures SpoolOk(stranded) && SlotsOk(overlay)
      ensures overlay == (old(overlay) - {src})[dst := moved]
      ensures old(Faithful(overlay, now, disk, provider)) ==> Faithful(overlay, now, disk, provider)
    {
      hide Inv, CopiesOf, SlotsOk, Faithful, MovedEntry;
      MovedCopies(overlay, now, src, dst, parentId, disk, provider);
      if HasCopy(overlay, src) {
        MoveKeeps(CopiesOf(overlay), src, dst, stranded, disk, setup);
      }
      overlay := (overlay - {src})[dst := moved];
    }

    /** `_move_entry`: a recent upload is renamed in the overlay at once; the provider follows later. */
    method MoveEntry(entry: Entry, src: Path, dst: Path, parentId: string) returns (metadata: Metadata)
      requires Valid() && src in overlay && overlay[src] == entry && entry.state == Uploaded
      requires src != dst && !HasCopy(overlay, dst)
      modifies `overlay, `pathToItem, cache
      ensures Valid()
      ensures overlay == (old(overlay) - {src})[dst := MovedEntry(entry, dst, parentId)]
      ensures pathToItem == (old(pathToItem) - {src})[dst := MovedEntry(entry, dst, parentId).item]
      ensures metadata == MovedEntry(entry, dst, parentId).metadata
      ensures cache.rows == CachePut(MetadataCache.Without(old(cache.rows), MovedPaths(src, dst)), metadata, now + cache.ttl)
      ensures old(Faithful(overlay, now, disk, provider)) ==> Faithful(overlay, now, disk, provider)
    {
      hide SpoolOk, CopiesOf, SlotsOk, PromisesKept, Faithful, MovedEntry, MetadataCache.Encode, MetadataCache.Lookup, MetadataCache.Without,
           CachePut, MovedPaths;
      var moved := MovedEntry(entry, dst, parentId);
      MovedDescribesPath(entry, dst, parentId);
      Relocate(src, dst, moved, parentId);
      pathToItem := (pathToItem - {src})[dst := moved.item];
      Recache(src, dst, moved.metadata);
      metadata := moved.metadata;
    }

    /** What was moved leaves the cache under its old path and enters it under its new one. */
    method Recache(src: Path, dst: Path, metadata: Metadata)
      requires metadata.path == dst
      modifies cache
      ensures cache.rows == CachePut(MetadataCache.Without(old(cache.rows), MovedPaths(src, dst)), metadata, now + cache.ttl)
      ensures MetadataCache.Lookup(cache.rows, now, dst) == Some(metadata)
    {
      hide MetadataCache.Encode, MetadataCache.Lookup, MetadataCache.Without;
      cache.Invalidate({src, dst, Parent(src), Parent(dst)});
      cache.Put(metadata, now);
    }

    /** The part of `move` that clears the destination: what is there is deleted, if that is allowed. `found` is what
        memory looked like after the destination was looked at. */
    method ClearDestination(dst: Path, overwrite: bool, remote: Remote, trash: Result<()>)
      returns (r: Result<()>, scheduled: Scheduled, ghost found: View)
      requires Valid()
      modifies `overlay, `pathToItem, `hidden, `stranded, `disk, `unlinks, `deletedUntil, `settled, cache
      ensures Valid()
      ensures old(Faithful(overlay, now, disk, provider)) ==> Faithful(overlay, now, disk, provider)
      ensures LookupEffects(old(Memory()), found, remote, dst)
      ensures (r, scheduled) == ClearAnswer(old(Memory()), found, old(cache.rows), remote, dst, overwrite, trash)
      // With the destination clear, a live tombstone is there if one was there before, or the delete left one.
      ensures r.Ok? ==> OnlySlotChanged(old(overlay), overlay, now, dst) && ClearedTo(found, Memory(), remote, dst, scheduled, tombstoneTtl)
      ensures r.Ok? ==> BuriedAfter(old(overlay), overlay, now, dst, scheduled, tombstoneTtl)
      ensures !overwrite ==> Memory() == found
      ensures TombstonesAfter(old(overlay), overlay, dst, scheduled)
      ensures PromisesAfter(old(deletedUntil), deletedUntil, old(settled), settled, scheduled, now + tombstoneTtl)
      ensures HidesAfter(old(hidden), hidden, now, scheduled)
      ensures scheduled.TrashObject? ==> HiddenUntil(scheduled.item.id, now + tombstoneTtl)
      ensures cache.rows == RowsAfterClear(old(Memory()), found, old(cache.rows), remote, dst, overwrite, trash, cache.ttl, cache.negativeTtl)
    {
      hide SpoolOk, CopiesOf, SlotsOk, PromisesKept, Faithful, SameBelow, LearnsFrom, Remembers, MetadataCache.Encode,
           MetadataCache.Without, RowsAfterLook, MetadataCache.Lookup, ToMetadata, OnlySlotChanged, Thinned, HiddenUntil, Tombstone, DeleteAnswer, MetadataAt,
           TombstonesAfter, PromisesAfter, HidesAfter, BuriedAfter, ClearedTo;
      ghost var before := Memory();
      scheduled := Nothing;
      NothingPromised(deletedUntil, settled, now + tombstoneTtl);
      var existing := GetMetadata(dst, remote);
      found := Memory();
      TombstonesAged(before, found, dst);
      NothingHidden(before, found);
      if existing.Err? {
        return Err(existing.error), scheduled, found;
      }
      if existing.value.None? {
        BareSlotKept(before, found, dst);
        ClearAlready(before, found, old(cache.rows), remote, dst, tombstoneTtl);
        return Ok(()), scheduled, found;
      }
      if !overwrite {
        return Err(AlreadyExists), scheduled, found;
      }
      SeenIsNoTombstone(before, found, old(cache.rows), remote, dst);
      var deleted := Delete(dst, remote, trash);
      if deleted.Ok? {
        ClearedByDelete(before, found, Memory(), remote, dst, deleted.value, tombstoneTtl);
      }
      TombstonesAlong(before.overlay, found.overlay, overlay, dst, Left(deleted));
      HidesThen(before.hidden, found.hidden, hidden, now, Left(deleted));
      return if deleted.Err? then Err(deleted.error) else Ok(()), Left(deleted), found;
    }

    /** `move`. `renamed` is the provider's answer when an object outside the overlay is moved on the spot. The ghosts
        report memory after the folder lookup, after looking at the destination, and with the destination clear. */
    method Move(src: Path, dst: Path, overwrite: bool, remote: Remote, trash: Result<()>, renamed: Result<()>)
      returns (r: Result<Metadata>, scheduled: Scheduled, ghost folderId: string, ghost seen: View, ghost found: View, ghost clear: View)
      requires Valid()
      modifies `overlay, `pathToItem, `hidden, `stranded, `disk, `unlinks, `deletedUntil, `settled, `provider, cache
      ensures Valid()
      ensures old(Faithful(overlay, now, disk, provider)) ==> Faithful(overlay, now, disk, provider)
      ensures src == dst ==>
        r == Present(MetadataAt(old(Memory()), old(cache.rows), remote, src)) && scheduled.Nothing? && provider == old(provider)
      // Otherwise the folder of the destination must be there, and the destination free or overwritten.
      ensures src != dst ==> LookupEffects(old(Memory()), seen, remote, Parent(dst))
      ensures src != dst ==>
        match Resolve(old(Memory()), remote, Parent(dst))
        case Err(e) => r == Err(e) && scheduled.Nothing?
        case Ok(None) => r == Err(NotFound) && scheduled.Nothing?
        case Ok(Some(folder)) =>
          if !folder.isFolder then r == Err(NotFound) && scheduled.Nothing?
          else
            && folderId == folder.id && LookupEffects(seen, found, remote, dst)
            && MoveAnswered(old(Memory()), seen, found, clear, Memory(), old(cache.rows), remote, src, dst, folderId, overwrite,
                            trash, renamed, r, scheduled, tombstoneTtl)
      ensures src != dst ==> provider == ProviderMoved(old(provider), old(LiveUpload(overlay, now, src)), r, dst, folderId)
      // What was moved is seen at the destination, unless it is no recent upload and a tombstone is in front of it: one
      // that was there, or the one that overwriting a file leaves.
      ensures src != dst && r.Ok? ==>
        MetadataAt(Memory(), cache.rows, remote, dst) == Ok(ShownAfterMove(old(Memory()), src, dst, scheduled, tombstoneTtl, r.value))
      // Memory and cache know it under its new path, and no longer under the old one.
      ensures src != dst && r.Ok? && !old(LiveUpload(overlay, now, src)) ==>
        src !in pathToItem && dst in pathToItem && MovedItem(clear, remote, src, dst, folderId) == Some(pathToItem[dst])
      ensures src == dst ==> cache.rows == RowsAfterLook(old(Memory()), old(cache.rows), remote, src, cache.ttl, cache.negativeTtl)
      ensures src != dst ==>
        cache.rows == if FolderAt(old(Memory()), remote, Parent(dst))
                      then RowsAfterMoveTo(seen, found, old(cache.rows), remote, src, dst, overwrite, trash, r, cache.ttl, cache.negativeTtl)
                      else old(cache.rows)
      // Clearing the destination is a delete like any other.
      ensures TombstonesAfter(old(overlay), overlay, dst, scheduled)
      ensures PromisesAfter(old(deletedUntil), deletedUntil, old(settled), settled, scheduled, now + tombstoneTtl)
      ensures HidesAfter(old(hidden), hidden, now, scheduled)
    {
      hide SpoolOk, CopiesOf, SlotsOk, PromisesKept, Faithful, SameBelow, LearnsFrom, Remembers, MetadataCache.Encode,
           MetadataCache.Lookup, ToMetadata, MetadataAt, Thinned, UploadMoved, HiddenPruned, TombstonesAfter, PromisesAfter,
           HidesAfter, ProviderMoved, ClearAnswer, MoveAnswered, LookupEffects, LiveUpload, Present, Resolve, Aged, Hidden, Live,
           ShownAfterMove, RowsAfterLook, RowsAfterMoveTo, MovedItem;
      folderId, scheduled := "", Nothing;
      NothingPromised(deletedUntil, settled, now + tombstoneTtl);
      ghost var before := Memory();
      seen, found, clear := before, before, before;
      if src == dst {
        var existing := GetMetadata(src, remote);
        LookupDeletesNothing(before, Memory(), remote, src, dst);
        return Present(existing), scheduled, folderId, seen, found, clear;
      }
      var parent := LookUp(Parent(dst), remote);
      seen := Memory();
      LookupDeletesNothing(before, seen, remote, Parent(dst), dst);
      NothingMoved(provider, dst);
      if parent.Err? {
        return Err(parent.error), scheduled, folderId, seen, found, clear;
      }
      if parent.value.None? || !parent.value.value.isFolder {
        return Err(NotFound), scheduled, folderId, seen, found, clear;
      }
      folderId := parent.value.value.id;
      r, scheduled, found, clear := MoveTo(src, dst, parent.value.value.id, overwrite, remote, trash, renamed);
      MovedAfterLookup(before, seen, found, clear, Memory(), old(cache.rows), remote, src, dst, folderId, overwrite, trash, renamed, r,
                       scheduled, tombstoneTtl);
    }

    /** `move`, with the destination folder known. */
    method MoveTo(src: Path, dst: Path, parentId: string, overwrite: bool, remote: Remote, trash: Result<()>, renamed: Result<()>)
      returns (r: Result<Metadata>, scheduled: Scheduled, ghost found: View, ghost clear: View)
      requires Valid() && src != dst
      modifies `overlay, `pathToItem, `hidden, `stranded, `disk, `unlinks, `deletedUntil, `settled, `provider, cache
      ensures Valid()
      ensures old(Faithful(overlay, now, disk, provider)) ==> Faithful(overlay, now, disk, provider)
      ensures LookupEffects(old(Memory()), found, remote, dst)
      ensures MoveAnswered(old(Memory()), old(Memory()), found, clear, Memory(), old(cache.rows), remote, src, dst, parentId, overwrite,
                           trash, renamed, r, scheduled, tombstoneTtl)
      ensures provider == ProviderMoved(old(provider), old(LiveUpload(overlay, now, src)), r, dst, parentId)
      ensures r.Ok? ==>
        MetadataAt(Memory(), cache.rows, remote, dst) == Ok(ShownAfterMove(old(Memory()), src, dst, scheduled, tombstoneTtl, r.value))
      ensures cache.rows == RowsAfterMoveTo(old(Memory()), found, old(cache.rows), remote, src, dst, overwrite, trash, r, cache.ttl,
                                            cache.negativeTtl)
      ensures r.Ok? && !old(LiveUpload(overlay, now, src)) ==>
        src !in pathToItem && dst in pathToItem && MovedItem(clear, remote, src, dst, parentId) == Some(pathToItem[dst])
      ensures TombstonesAfter(old(overlay), overlay, dst, scheduled)
      ensures PromisesAfter(old(deletedUntil), deletedUntil, old(settled), settled, scheduled, now + tombstoneTtl)
      ensures HidesAfter(old(hidden), hidden, now, scheduled)
    {
      hide SpoolOk, CopiesOf, SlotsOk, PromisesKept, Faithful, MetadataCache.Encode, MetadataCache.Lookup, ToMetadata, MetadataAt,
           UploadMoved, RemoteMoveAnswer, TombstonesAfter, PromisesAfter, HidesAfter, HiddenUntil, ProviderMoved, ClearAnswer,
           MoveAnswered, OnlySlotChanged, LookupEffects, ClearedTo, BuriedAfter, ShownAfterMove, RowsAfterClear, MovedItem, Live,
           LiveUpload, Left, HasCopy;
      ghost var v, rows := Memory(), cache.rows;
      var cleared;
      cleared, scheduled, found := ClearDestination(dst, overwrite, remote, trash);
      clear := Memory();
      if cleared.Err? {
        r := Err(cleared.error);
        NothingMoved(provider, dst);
        AnsweredUncleared(v, found, clear, rows, remote, src, dst, parentId, overwrite, trash, renamed, r, scheduled, tombstoneTtl);
        return;
      }
      SlotsAlong(v, clear, dst);
      ShownOnceClear(v, clear, src, dst, scheduled, tombstoneTtl);
      r := MoveCleared(src, dst, parentId, remote, renamed);
      TombstonesThinned(v.overlay, clear.overlay, overlay, dst, scheduled);
      HidesFirst(v.hidden, clear.hidden, hidden, now, scheduled);
      AnsweredCleared(v, found, clear, Memory(), rows, remote, src, dst, parentId, overwrite, trash, renamed, r, scheduled,
                      tombstoneTtl);
    }

    /** `move`, once the destination is clear. */
    method MoveCleared(src: Path, dst: Path, parentId: string, remote: Remote, renamed: Result<()>) returns (r: Result<Metadata>)
      requires Valid() && src != dst && !HasCopy(overlay, dst) && !LiveUpload(overlay, now, dst)
      modifies `overlay, `pathToItem, `hidden, `stranded, `disk, `unlinks, `provider, cache
      ensures Valid()
      ensures old(Faithful(overlay, now, disk, provider)) ==> Faithful(overlay, now, disk, provider)
      ensures MoveDone(old(Memory()), Memory(), remote, src, dst, parentId, renamed, r)
      ensures provider == ProviderMoved(old(provider), old(LiveUpload(overlay, now, src)), r, dst, parentId)
      ensures TombstonesAfter(old(overlay), overlay, dst, Nothing) && HiddenPruned(old(hidden), hidden, now)
      ensures cache.rows == RowsAfterMove(old(cache.rows), src, dst, r, now + cache.ttl)
      ensures r.Ok? && !old(LiveUpload(overlay, now, src)) ==>
        src !in pathToItem && dst in pathToItem && MovedItem(old(Memory()), remote, src, dst, parentId) == Some(pathToItem[dst])
      ensures r.Ok? ==>
        MetadataAt(Memory(), cache.rows, remote, dst) == Ok(ShownAfterMove(old(Memory()), src, dst, Nothing, 0, r.value))
    {
      hide SpoolOk, CopiesOf, SlotsOk, PromisesKept, Faithful, SameBelow, LearnsFrom, Remembers, MetadataCache.Encode, MoveDone, HasCopy,
           MetadataCache.Lookup, ToMetadata, Thinned, MovedEntry, UploadMoved, TombstonesAfter, Pruned, HiddenPruned, MetadataAt, Renamed,
           CachePut, MovedPaths, MetadataCache.Without, MovedItem, RemoteMoveResult, ProviderMoved, RowsAfterMove, ShownAfterMove, Resolve,
           LookupEffects, Aged, ForgetsOnly;
      ghost var before, rows := Memory(), cache.rows;
      var entry := LiveEntry(src, remote);
      if entry.Some? && entry.value.state != PendingDelete {
        var metadata := MoveEntry(entry.value, src, dst, parentId);
        EntryMoveDone(before, Memory(), remote, rows, cache.rows, provider, src, dst, parentId, renamed, metadata, now + cache.ttl);
        return Ok(metadata);
      }
      ghost var mid := Memory();
      r := MoveRemote(src, dst, parentId, remote, renamed);
      RemoteMoveAfter(before, mid, Memory(), remote, cache.rows, src, dst, parentId, renamed, r);
    }

    /** `move` of an object the overlay has no upload for: the provider is asked at once. */
    method MoveRemote(src: Path, dst: Path, parentId: string, remote: Remote, renamed: Result<()>) returns (r: Result<Metadata>)
      requires Valid() && src != dst
      modifies `overlay, `pathToItem, `hidden, `stranded, `disk, `unlinks, `provider, cache
      ensures Valid()
      ensures old(Faithful(overlay, now, disk, provider)) ==> Faithful(overlay, now, disk, provider)
      ensures RemoteMoveAnswer(old(Memory()), remote, src, dst, parentId, renamed, r)
      ensures provider == ProviderMoved(old(provider), false, r, dst, parentId)
      // The moved object shows at the destination, unless a tombstone is still in front of it.
      ensures r.Ok? && !Live(overlay, now, dst) ==> MetadataAt(Memory(), cache.rows, remote, dst) == Ok(Some(r.value))
      ensures r.Ok? && LiveTombstone(overlay, now, dst) ==> MetadataAt(Memory(), cache.rows, remote, dst) == Ok(None)
      ensures r.Ok? ==> src !in pathToItem && dst in pathToItem && MovedItem(old(Memory()), remote, src, dst, parentId) == Some(pathToItem[dst])
      ensures cache.rows == RowsAfterMove(old(cache.rows), src, dst, r, now + cache.ttl)
      ensures Pruned(old(overlay), overlay, now) && HiddenPruned(old(hidden), hidden, now)
    {
      hide SpoolOk, CopiesOf, SlotsOk, PromisesKept, Faithful, SameBelow, LearnsFrom, Remembers, HiddenPruned, MetadataCache.Encode,
           MetadataCache.Lookup, MetadataCache.Without, WeakETag, Renamed, Pruned, MetadataAt, ToMetadata, CachePut, MovedPaths, MovedItem, RemoteMoveResult,
           Resolve, LookupEffects, Live, ProviderMoved, RowsAfterMove;
      ghost var before, rows, p := Memory(), cache.rows, provider;
      NothingMoved(p, dst);
      NothingRecached(rows, src, dst, now + cache.ttl);
      var item := LookUp(src, remote);
      LookupPrunes(before, Memory(), remote, src);
      RemoteMoveFails(before, remote, src, dst, parentId, renamed);
      if item.Err? {
        return Err(item.error);
      }
      if item.value.None? {
        return Err(NotFound);
      }
      var moved := item.value.value.(name := Base(dst), parentId := Some(parentId));
      RemoteMoveWorks(before, remote, src, dst, parentId, renamed, item.value.value, moved);
      if renamed.Err? {
        return Err(renamed.error);
      }
      ghost var v := Memory();
      MetadataAtPath(moved, dst);
      var metadata := RenameObject(item.value.value, moved, src, dst, parentId);
      RemoteMoveShows(v, Memory(), cache.rows, remote, src, dst, moved, metadata);
      RemoteMoveDone(p, rows, src, dst, parentId, item.value.value, moved, metadata, now + cache.ttl);
      return Ok(metadata);
    }

    /** The provider has renamed the object; memory and cache follow. */
    method RenameObject(item: Item, moved: Item, src: Path, dst: Path, parentId: string) returns (metadata: Metadata)
      requires Valid() && src != dst && moved == item.(name := Base(dst), parentId := Some(parentId))
      modifies `pathToItem, `provider, cache
      ensures Valid()
      ensures old(Faithful(overlay, now, disk, provider)) ==> Faithful(overlay, now, disk, provider)
      ensures provider == Renamed(old(provider), item.id, moved.name, parentId)
      ensures pathToItem == (old(pathToItem) - {src})[dst := moved] && metadata == ToMetadata(moved, dst)
      ensures MetadataCache.Lookup(cache.rows, now, dst) == Some(metadata)
      ensures cache.rows == CachePut(MetadataCache.Without(old(cache.rows), MovedPaths(src, dst)), metadata, now + cache.ttl)
    {
      hide SpoolOk, SlotsOk, PromisesKept, Faithful, MetadataCache.Encode, MetadataCache.Lookup, MetadataCache.Without, ToMetadata, Renamed,
           CachePut, MovedPaths;
      RenamingKeepsFaithful(overlay, now, disk, provider, item.id, moved.name, parentId);
      provider := Renamed(provider, item.id, moved.name, parentId);
      pathToItem := (pathToItem - {src})[dst := moved];
      metadata := ToMetadata(moved, dst);
      MetadataAtPath(moved, dst);
      Recache(src, dst, metadata);
    }

    // ---------------------------------------------------------------- background tasks and time

    /** `_delete_remote`, as it ends: the object was trashed, or the task gave up. The tombstone is found
        again by path. */
    method TrashRemote(path: Path, item: Item, outcome: TrashOutcome)
      requires Valid()
      modifies `overlay, `provider, `trashed
      ensures Valid()
      ensures provider == (if outcome.GaveUp? then old(provider) else old(provider) - {item.id})
      ensures trashed == (if outcome.GaveUp? then old(trashed) else old(trashed) + {item.id})
      ensures overlay == if outcome.Trashed? then MarkDeleted(old(overlay), path) else old(overlay)
      // The mark tells the truth exactly when the tombstone found at the path is that of the trashed object, or of
      // one that was trashed before.
      ensures outcome.Trashed? && old(MarksTrue(overlay, trashed)) ==>
        (MarksTrue(overlay, trashed) <==> !old(MisleadsMark(overlay, trashed, path, item.id)))
      ensures !outcome.Trashed? && old(MarksTrue(overlay, trashed)) ==> MarksTrue(overlay, trashed)
      ensures old(Faithful(overlay, now, disk, provider)) ==>
        (Faithful(overlay, now, disk, provider) <==> outcome.GaveUp? || !old(StandsFor(overlay, now, item.id)))
    {
      hide SpoolOk, CopiesOf, SlotsOk, PromisesKept, Faithful, StandsFor, MarksTrue, MisleadsMark;
      if outcome.GaveUp? {
        return;
      }
      if Faithful(overlay, now, disk, provider) {
        TrashingFaithfulIff(overlay, now, disk, provider, item.id);
      }
      if MarksTrue(overlay, trashed) {
        MarkedTruly(overlay, trashed, path, item.id);
      }
      provider := provider - {item.id};
      trashed := trashed + {item.id};
      if outcome.Trashed? {
        MarkFound(path);
      }
    }

    /** The mark goes to whatever tombstone the path has by now. */
    method MarkFound(path: Path)
      requires Valid()
      modifies `overlay
      ensures Valid()
      ensures overlay == MarkDeleted(old(overlay), path)
      ensures Faithful(overlay, now, disk, provider) <==> old(Faithful(overlay, now, disk, provider))
    {
      hide Inv, CopiesOf, SlotsOk, PromisesKept, Faithful, NamesDrawn, PeakBounded;
      MarkKeeps(overlay, now, path, disk, provider);
      if path in overlay && overlay[path].state == PendingDelete {
        overlay := overlay[path := overlay[path].(remoteDeleted := true)];
      }
    }

    /** The provider carries out the rename of a moved upload. */
    method RenameRemote(item: Item, name: string, parentId: string)
      requires Valid()
      modifies `provider
      ensures Valid()
      ensures provider == Renamed(old(provider), item.id, name, parentId)
      ensures old(Faithful(overlay, now, disk, provider)) ==> Faithful(overlay, now, disk, provider)
    {
      RenamingKeepsFaithful(overlay, now, disk, provider, item.id, name, parentId);
      provider := Renamed(provider, item.id, name, parentId);
    }

    method Tick(elapsed: nat)
      requires Valid()
      modifies `now
      ensures Valid()
      ensures now == old(now) + elapsed
      ensures old(Faithful(overlay, now, disk, provider)) ==> Faithful(overlay, now, disk, provider)
    {
      hide SpoolOk, SlotsOk, Faithful;
      if Faithful(overlay, now, disk, provider) {
        TimeKeepsFaithful(overlay, now, now + elapsed, disk, provider);
      }
      now := now + elapsed;
    }
  }
}
