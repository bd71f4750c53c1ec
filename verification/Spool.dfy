/**
 The disk accounting behind the copies of recent uploads, on plain values.

 `Inv` is what every step of the store keeps about the copies its overlay entries hold, its stranded
 copies and the files really in the spool directory; `UsageBounded` is what it buys: the directory
 never takes more than the budget, or than what start-up found when that was already more.
 */
module Spool {
  import opened Wrappers
  import opened Sums
  import opened CloudTypes

  /** The local copy of an overlay entry: its file, and the size it is accounted for. */
  datatype Copy = Copy(name: CopyName, size: nat)

  type Copies = map<Path, Copy>
  type Stranded = map<CopyName, nat>
  type Disk = map<CopyName, Bytes>

  /** What stays fixed for the life of the process: the byte budget and the files found at start-up. */
  datatype Setup = Setup(budget: nat, leftovers: Disk)

  /** The copies the overlay holds, slot by slot. */
  function CopiesOf(o: Overlay): (c: Copies)
    ensures forall p :: p in c <==> HasCopy(o, p)
  {
    map p | p in o && HasCopy(o, p) :: Copy(o[p].localPath.value, AccountedSize(o[p]))
  }

  lemma CopiesAfterPut(o: Overlay, p: Path, e: Entry)
    requires p !in o
    ensures p !in CopiesOf(o)
    ensures CopiesOf(o[p := e]) ==
      if e.localPath.Some? then CopiesOf(o)[p := Copy(e.localPath.value, AccountedSize(e))] else CopiesOf(o)
  {
    assert forall q :: q != p ==> (HasCopy(o[p := e], q) <==> HasCopy(o, q));
  }

  function Sizes(c: Copies): map<Path, nat> {
    map p | p in c :: c[p].size
  }

  /** What `_local_copies_size` adds up. */
  ghost function Total(c: Copies, st: Stranded): nat {
    Sum(Sizes(c)) + Sum(st)
  }

  function Lengths(d: Disk): map<CopyName, nat> {
    map n | n in d :: |d[n]|
  }

  /** Bytes really taken in the spool directory. */
  ghost function Usage(d: Disk): nat {
    Sum(Lengths(d))
  }

  /** No file belongs to two overlay entries, or to an entry and the stranded copies. */
  ghost predicate TrackedAtMostOnce(c: Copies, st: Stranded) {
    && (forall p, q :: p in c && q in c && p != q ==> c[p].name != c[q].name)
    && (forall p :: p in c ==> c[p].name !in st)
  }

  ghost predicate Holds(c: Copies, n: CopyName) {
    exists p :: p in c && c[p].name == n
  }

  /** Every file in the directory belongs to an overlay entry or is a stranded copy. */
  ghost predicate TrackedAtLeastOnce(c: Copies, st: Stranded, d: Disk) {
    forall n :: n in d && n !in st ==> Holds(c, n)
  }

  /** A copy in an overlay entry is on disk, whole, and made by this process. */
  ghost predicate EntriesExact(c: Copies, d: Disk, setup: Setup) {
    forall p :: p in c ==> c[p].name in d && |d[c[p].name]| == c[p].size && c[p].name !in setup.leftovers
  }

  /** A stranded copy is accounted for at least what it takes. Only a leftover of unknown size may take
      more, and then it is accounted as the whole budget. */
  ghost predicate StrandedCovered(st: Stranded, d: Disk, setup: Setup) {
    forall n :: n in st && n in d ==>
      |d[n]| <= st[n] || (n in setup.leftovers && st[n] == setup.budget)
  }

  /** A leftover still on disk is as start-up found it. */
  ghost predicate LeftoversUntouched(d: Disk, setup: Setup) {
    forall n :: n in d && n in setup.leftovers ==> d[n] == setup.leftovers[n]
  }

  /** Nothing made by this process takes a single byte. */
  ghost predicate NothingMade(c: Copies, st: Stranded, setup: Setup) {
    && (forall p :: p in c ==> c[p].size == 0)
    && (forall n :: n in st && n !in setup.leftovers ==> st[n] == 0)
  }

  ghost predicate WithinBudget(c: Copies, st: Stranded, setup: Setup) {
    setup.budget > 0 ==> Total(c, st) <= setup.budget || NothingMade(c, st, setup)
  }

  ghost predicate Inv(c: Copies, st: Stranded, d: Disk, setup: Setup) {
    && TrackedAtMostOnce(c, st)
    && TrackedAtLeastOnce(c, st, d)
    && EntriesExact(c, d, setup)
    && StrandedCovered(st, d, setup)
    && LeftoversUntouched(d, setup)
    && WithinBudget(c, st, setup)
  }

  /** Files only disappear; those that stay keep their bytes. */
  ghost predicate Shrinks(d: Disk, d': Disk) {
    forall n :: n in d' ==> n in d && d'[n] == d[n]
  }

  // ------------------------------------------------------------------ the bound

  /** Every tracked file on disk is accounted for at least its length. */
  ghost predicate Covered(c: Copies, st: Stranded, d: Disk) {
    && (forall p :: p in c && c[p].name in d ==> |d[c[p].name]| <= c[p].size)
    && (forall n :: n in st && n in d ==> |d[n]| <= st[n])
  }

  lemma HoldsWithout(c: Copies, p: Path, n: CopyName)
    requires p in c && Holds(c, n) && n != c[p].name
    ensures Holds(c - {p}, n)
  {
    var q :| q in c && c[q].name == n;
    assert q in c - {p};
  }

  lemma UsageWithout(d: Disk, n: CopyName)
    ensures Usage(d) == Usage(d - {n}) + if n in d then |d[n]| else 0
  {
    if n in d {
      SumRemove(Lengths(d), n);
      assert Lengths(d - {n}) == Lengths(d) - {n};
    } else {
      assert d - {n} == d;
    }
  }

  lemma TotalWithout(c: Copies, st: Stranded, p: Path)
    requires p in c
    ensures Total(c, st) == Total(c - {p}, st) + c[p].size
  {
    SumRemove(Sizes(c), p);
    assert Sizes(c - {p}) == Sizes(c) - {p};
  }

  lemma TotalWith(c: Copies, st: Stranded, p: Path, copy: Copy)
    requires p !in c
    ensures Total(c[p := copy], st) == Total(c, st) + copy.size
  {
    TotalWithout(c[p := copy], st, p);
    assert c[p := copy] - {p} == c;
  }

  lemma TotalStranding(c: Copies, st: Stranded, n: CopyName, size: nat)
    requires n !in st
    ensures Total(c, st[n := size]) == Total(c, st) + size
  {
    SumUpdate(st, n, size);
    assert st - {n} == st;
  }

  /** When every file is accounted for at least its length, so is the directory. */
  lemma {:induction false} UsageAtMostTotal(c: Copies, st: Stranded, d: Disk)
    requires TrackedAtMostOnce(c, st) && TrackedAtLeastOnce(c, st, d) && Covered(c, st, d)
    ensures Usage(d) <= Total(c, st)
    decreases c.Keys
  {
    if p :| p in c {
      var n := c[p].name;
      forall m | m in d - {n} && m !in st ensures Holds(c - {p}, m) {
        HoldsWithout(c, p, m);
      }
      UsageAtMostTotal(c - {p}, st, d - {n});
      TotalWithout(c, st, p);
      UsageWithout(d, n);
    } else {
      SumDominated(Lengths(d), st);
    }
  }

  /** Main result on values: the invariant bounds disk usage, whatever failed so far. */
  lemma UsageBounded(c: Copies, st: Stranded, d: Disk, setup: Setup)
    requires Inv(c, st, d, setup) && setup.budget > 0
    ensures Usage(d) <= setup.budget || Usage(d) <= Usage(setup.leftovers)
  {
    if n :| n in st && n in d && |d[n]| > st[n] && !NothingMade(c, st, setup) {
      UnknownLeftoverBlocksCopies(c, st, setup, n);
    } else if NothingMade(c, st, setup) {
      SumDominated(Lengths(d), Lengths(setup.leftovers));
    } else {
      UsageAtMostTotal(c, st, d);
    }
  }

  /** A leftover of unknown size fills the budget on paper, so nothing else can have been admitted. */
  lemma UnknownLeftoverBlocksCopies(c: Copies, st: Stranded, setup: Setup, n: CopyName)
    requires n in st && n in setup.leftovers && st[n] == setup.budget
    requires Total(c, st) <= setup.budget
    ensures NothingMade(c, st, setup)
  {
    SumAtLeast(st, n);
    forall p | p in c ensures c[p].size == 0 {
      SumAtLeast(Sizes(c), p);
    }
    forall m | m in st && m !in setup.leftovers ensures st[m] == 0 {
      SumAtLeastTwo(st, m, n);
    }
  }

  // ------------------------------------------------------------------ steps that keep the invariant

  /** What start-up leaves behind satisfies the invariant. */
  lemma PurgedInv(st: Stranded, d: Disk, setup: Setup)
    requires d.Keys == st.Keys && Shrinks(setup.leftovers, d)
    requires forall n :: n in st ==> st[n] == |d[n]| || st[n] == setup.budget
    ensures Inv(map[], st, d, setup)
  {
  }

  /** An entry loses its copy and the file is gone: an eviction, or a drop whose unlink worked. */
  lemma DeletedKeeps(c: Copies, p: Path, st: Stranded, d: Disk, setup: Setup)
    requires Inv(c, st, d, setup) && p in c
    ensures Inv(c - {p}, st, d - {c[p].name}, setup)
  {
    TotalWithout(c, st, p);
    forall m | m in d - {c[p].name} && m !in st ensures Holds(c - {p}, m) {
      HoldsWithout(c, p, m);
    }
  }

  /** A dropped entry whose file could not be deleted leaves it stranded, at the size it had. */
  lemma StrandedKeeps(c: Copies, p: Path, st: Stranded, d: Disk, setup: Setup)
    requires Inv(c, st, d, setup) && p in c
    ensures Inv(c - {p}, st[c[p].name := c[p].size], d, setup) && c[p].name in d
  {
    StrandTracked(c, p, st, d);
    StrandCounted(c, p, st, setup);
    hide TrackedAtMostOnce, TrackedAtLeastOnce, WithinBudget;
  }

  lemma StrandTracked(c: Copies, p: Path, st: Stranded, d: Disk)
    requires p in c && TrackedAtMostOnce(c, st) && TrackedAtLeastOnce(c, st, d)
    ensures var st' := st[c[p].name := c[p].size]; TrackedAtMostOnce(c - {p}, st') && TrackedAtLeastOnce(c - {p}, st', d)
  {
    forall m | m in d && m !in st[c[p].name := c[p].size] ensures Holds(c - {p}, m) {
      HoldsWithout(c, p, m);
    }
  }

  lemma StrandCounted(c: Copies, p: Path, st: Stranded, setup: Setup)
    requires p in c && TrackedAtMostOnce(c, st) && WithinBudget(c, st, setup)
    ensures WithinBudget(c - {p}, st[c[p].name := c[p].size], setup)
  {
    hide Total;
    TotalWithout(c, st, p);
    TotalStranding(c - {p}, st, c[p].name, c[p].size);
  }

  /** A stranded copy that could at last be deleted stops being accounted. */
  lemma SweptKeeps(c: Copies, st: Stranded, n: CopyName, d: Disk, setup: Setup)
    requires Inv(c, st, d, setup) && n in st
    ensures Inv(c, st - {n}, d - {n}, setup)
  {
    SumRemove(st, n);
  }

  /** Admitting a copy that fits: its name is accounted for the full size before a byte is written. */
  lemma ReserveKeeps(c: Copies, st: Stranded, n: CopyName, size: nat, d: Disk, setup: Setup)
    requires Inv(c, st, d, setup)
    requires n !in st && n !in d && n !in setup.leftovers
    requires setup.budget > 0 ==> Total(c, st) + size <= setup.budget
    ensures Inv(c, st[n := size], d, setup)
  {
    TotalStranding(c, st, n, size);
  }

  /** Any part of a reserved copy may be on disk. */
  lemma PartialWriteKeeps(c: Copies, st: Stranded, n: CopyName, part: Bytes, d: Disk, setup: Setup)
    requires Inv(c, st, d, setup)
    requires n in st && n !in setup.leftovers && |part| <= st[n]
    ensures Inv(c, st, d[n := part], setup)
  {
  }

  /** A failed copy that could not be removed is accounted for what it really takes. */
  lemma RestateKeeps(c: Copies, st: Stranded, n: CopyName, size: nat, d: Disk, setup: Setup)
    requires Inv(c, st, d, setup)
    requires n in st && n !in setup.leftovers && size <= st[n] && (n in d ==> |d[n]| <= size)
    ensures Inv(c, st[n := size], d, setup)
  {
    SumUpdate(st, n, size);
    SumRemove(st, n);
  }

  /** A finished copy changes hands from the reservation to the entry of its upload. */
  lemma AdoptKeeps(c: Copies, p: Path, st: Stranded, n: CopyName, d: Disk, setup: Setup)
    requires n in d && n !in st && n !in setup.leftovers && p !in c
    requires Inv(c, st[n := |d[n]|], d, setup)
    ensures Inv(c[p := Copy(n, |d[n]|)], st, d, setup)
  {
    AdoptTracked(c, p, st, n, d, setup);
    AdoptCounted(c, p, st, n, |d[n]|, setup);
    AdoptCovered(st, n, |d[n]|, d, setup);
    hide TrackedAtMostOnce, TrackedAtLeastOnce, WithinBudget, StrandedCovered, LeftoversUntouched;
  }

  lemma AdoptCovered(st: Stranded, n: CopyName, size: nat, d: Disk, setup: Setup)
    requires n !in st && StrandedCovered(st[n := size], d, setup)
    ensures StrandedCovered(st, d, setup)
  {
    var st' := st[n := size];
    assert forall m :: m in st ==> m in st' && st'[m] == st[m];
  }

  lemma AdoptTracked(c: Copies, p: Path, st: Stranded, n: CopyName, d: Disk, setup: Setup)
    requires n in d && n !in st && p !in c
    requires TrackedAtMostOnce(c, st[n := |d[n]|]) && TrackedAtLeastOnce(c, st[n := |d[n]|], d)
    ensures TrackedAtMostOnce(c[p := Copy(n, |d[n]|)], st) && TrackedAtLeastOnce(c[p := Copy(n, |d[n]|)], st, d)
  {
    var c' := c[p := Copy(n, |d[n]|)];
    forall m | m in d && m !in st ensures Holds(c', m) {
      if m == n {
        assert c'[p].name == n;
      } else {
        var q :| q in c && c[q].name == m;
        assert q in c';
      }
    }
  }

  lemma AdoptCounted(c: Copies, p: Path, st: Stranded, n: CopyName, size: nat, setup: Setup)
    requires n !in st && n !in setup.leftovers && p !in c && WithinBudget(c, st[n := size], setup)
    ensures WithinBudget(c[p := Copy(n, size)], st, setup)
  {
    hide Total;
    TotalStranding(c, st, n, size);
    TotalWith(c, st, p, Copy(n, size));
    if NothingMade(c, st[n := size], setup) {
      var st' := st[n := size];
      assert st'[n] == 0;
      assert forall m :: m in st ==> m in st' && st'[m] == st[m];
    }
  }

  /** A moved upload takes its copy along to a slot that holds none. */
  lemma MoveKeeps(c: Copies, src: Path, dst: Path, st: Stranded, d: Disk, setup: Setup)
    requires Inv(c, st, d, setup)
    requires src in c && dst !in c
    ensures Inv((c - {src})[dst := c[src]], st, d, setup)
  {
    MoveTracked(c, src, dst, st, d);
    MoveCounted(c, src, dst, st, setup);
    hide TrackedAtMostOnce, TrackedAtLeastOnce, WithinBudget, StrandedCovered, LeftoversUntouched;
  }

  lemma MoveTracked(c: Copies, src: Path, dst: Path, st: Stranded, d: Disk)
    requires src in c && dst !in c && TrackedAtMostOnce(c, st) && TrackedAtLeastOnce(c, st, d)
    ensures TrackedAtMostOnce((c - {src})[dst := c[src]], st) && TrackedAtLeastOnce((c - {src})[dst := c[src]], st, d)
  {
    var c' := (c - {src})[dst := c[src]];
    forall m | m in d && m !in st ensures Holds(c', m) {
      var q :| q in c && c[q].name == m;
      assert c'[if q == src then dst else q].name == m;
    }
  }

  lemma MoveCounted(c: Copies, src: Path, dst: Path, st: Stranded, setup: Setup)
    requires src in c && dst !in c && WithinBudget(c, st, setup)
    ensures WithinBudget((c - {src})[dst := c[src]], st, setup)
  {
    hide Total;
    TotalWithout(c, st, src);
    TotalWith(c - {src}, st, dst, c[src]);
  }
}
