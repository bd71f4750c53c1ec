/**
 What an eviction pass over the overlay's copies does, as a function of the unlink results.
 */
module Eviction {
  import opened Wrappers
  import opened CloudTypes
  import opened Spool

  /** One call to `os.unlink` on a spool file and whether the file is gone afterwards. */
  datatype Unlink = Unlink(name: CopyName, gone: bool)

  /** One attempt to write a copy of `size` bytes, and whether it worked. */
  datatype Write = Write(name: CopyName, size: nat, copied: bool)

  /** `order` lists exactly the entries that hold a copy, each once, oldest expiry first. */
  ghost predicate IsEvictionOrder(order: seq<Path>, o: Overlay) {
    && (forall p :: p in order <==> HasCopy(o, p))
    && (forall i, j :: 0 <= i < j < |order| ==> order[i] != order[j])
    && (forall i, j :: 0 <= i < j < |order| && HasCopy(o, order[i]) && HasCopy(o, order[j]) ==>
          o[order[i]].expiresAt <= o[order[j]].expiresAt)
  }

  ghost predicate AllHold(o: Overlay, order: seq<Path>) {
    forall i :: 0 <= i < |order| ==> HasCopy(o, order[i])
  }

  function WithoutCopy(o: Overlay, p: Path): Overlay
    requires p in o
  {
    o[p := o[p].(localPath := None)]
  }

  lemma CopiesWithout(o: Overlay, p: Path)
    requires HasCopy(o, p)
    ensures CopiesOf(WithoutCopy(o, p)) == CopiesOf(o) - {p}
    ensures p in CopiesOf(o) && CopiesOf(o)[p] == Copy(o[p].localPath.value, AccountedSize(o[p]))
  {
  }

  /** The overlay after trying to evict the first copies of `order`; `gone` says which unlinks worked. */
  ghost function AfterEvicting(o: Overlay, order: seq<Path>, gone: seq<bool>): (o': Overlay)
    requires |gone| <= |order| && AllHold(o, order)
    ensures o'.Keys == o.Keys
    decreases |gone|
  {
    if gone == [] then
      o
    else
      var last := |gone| - 1;
      var before := AfterEvicting(o, order, gone[..last]);
      if gone[last] then WithoutCopy(before, order[last]) else before
  }

  /** The unlink calls of that pass. */
  ghost function EvictionLog(o: Overlay, order: seq<Path>, gone: seq<bool>): seq<Unlink>
    requires |gone| <= |order| && AllHold(o, order)
    decreases |gone|
  {
    if gone == [] then
      []
    else
      var last := |gone| - 1;
      EvictionLog(o, order, gone[..last]) + [Unlink(o[order[last]].localPath.value, gone[last])]
  }

  /** An eviction pass takes the copy of exactly the tried entries whose unlink worked. */
  lemma {:induction false} EvictingTakes(o: Overlay, order: seq<Path>, gone: seq<bool>, p: Path)
    requires |gone| <= |order| && AllHold(o, order)
    requires p in o
    ensures AfterEvicting(o, order, gone)[p] ==
            if exists i :: 0 <= i < |gone| && gone[i] && order[i] == p then o[p].(localPath := None) else o[p]
    decreases |gone|
  {
    if gone != [] {
      var last := |gone| - 1;
      EvictingTakes(o, order, gone[..last], p);
      if gone[last] && order[last] == p {
        assert exists i :: 0 <= i < |gone| && gone[i] && order[i] == p;
      } else {
        assert (exists i :: 0 <= i < |gone| && gone[i] && order[i] == p)
            <==> (exists i :: 0 <= i < last && gone[..last][i] && order[i] == p);
      }
    }
  }

  /** The next candidate is still as it was. */
  lemma UntriedUntouched(o: Overlay, order: seq<Path>, gone: seq<bool>)
    requires |gone| < |order| && IsEvictionOrder(order, o) && AllHold(o, order)
    ensures order[|gone|] in o && AfterEvicting(o, order, gone)[order[|gone|]] == o[order[|gone|]]
  {
    EvictingTakes(o, order, gone, order[|gone|]);
  }

  /** The overlay keeps its entries, except that some lost their copy. */
  ghost predicate OnlyCopiesDropped(o: Overlay, o': Overlay) {
    && o'.Keys == o.Keys
    && forall p :: p in o ==> o'[p] == o[p] || o'[p] == o[p].(localPath := None)
  }

  lemma EvictingOnlyDropsCopies(o: Overlay, order: seq<Path>, gone: seq<bool>)
    requires |gone| <= |order| && AllHold(o, order)
    ensures OnlyCopiesDropped(o, AfterEvicting(o, order, gone))
  {
    forall p | p in o ensures AfterEvicting(o, order, gone)[p] in {o[p], o[p].(localPath := None)} {
      EvictingTakes(o, order, gone, p);
    }
  }

  lemma EvictedOneMore(o: Overlay, order: seq<Path>, gone: seq<bool>, last: bool)
    requires |gone| < |order| && AllHold(o, order)
    ensures (gone + [last])[..|gone|] == gone
    ensures AfterEvicting(o, order, gone + [last])
         == if last then WithoutCopy(AfterEvicting(o, order, gone), order[|gone|]) else AfterEvicting(o, order, gone)
    ensures EvictionLog(o, order, gone + [last])
         == EvictionLog(o, order, gone) + [Unlink(o[order[|gone|]].localPath.value, last)]
  {
    assert (gone + [last])[..|gone|] == gone;
  }

  /** The pass so far: the answers of the unlinks tried, each of which was due because the copies left did not make
      room for `size` bytes more. */
  ghost predicate Evicting(o: Overlay, o': Overlay, log: seq<Unlink>, log': seq<Unlink>, order: seq<Path>, gone: seq<bool>,
                           st: Stranded, size: nat, budget: nat)
  {
    && |gone| <= |order| && AllHold(o, order)
    && o' == AfterEvicting(o, order, gone)
    && log' == log + EvictionLog(o, order, gone)
    && (gone != [] ==> Total(CopiesOf(AfterEvicting(o, order, gone[..|gone| - 1])), st) + size > budget)
  }

  lemma WhatEvictingMeans(o: Overlay, o': Overlay, log: seq<Unlink>, log': seq<Unlink>, order: seq<Path>, gone: seq<bool>,
                          st: Stranded, size: nat, budget: nat)
    requires Evicting(o, o', log, log', order, gone, st, size, budget)
    ensures |gone| <= |order| && AllHold(o, order)
    ensures o' == AfterEvicting(o, order, gone) && log' == log + EvictionLog(o, order, gone)
    ensures gone != [] ==> Total(CopiesOf(AfterEvicting(o, order, gone[..|gone| - 1])), st) + size > budget
  {
  }

  lemma OrderHolds(order: seq<Path>, o: Overlay)
    requires IsEvictionOrder(order, o)
    ensures AllHold(o, order)
  {
  }

  lemma EvictedNothing(o: Overlay, log: seq<Unlink>, order: seq<Path>, st: Stranded, size: nat, budget: nat)
    requires IsEvictionOrder(order, o)
    ensures Evicting(o, o, log, log, order, [], st, size, budget)
  {
    OrderHolds(order, o);
  }

  lemma CandidateUntouched(o: Overlay, o1: Overlay, log: seq<Unlink>, log1: seq<Unlink>, order: seq<Path>, gone: seq<bool>,
                           st: Stranded, size: nat, budget: nat)
    requires Evicting(o, o1, log, log1, order, gone, st, size, budget) && IsEvictionOrder(order, o) && |gone| < |order|
    ensures order[|gone|] in o && order[|gone|] in o1 && o1[order[|gone|]] == o[order[|gone|]]
    ensures HasCopy(o1, order[|gone|]) && o1[order[|gone|]].localPath.Some?
  {
    hide Total, CopiesOf;
    UntriedUntouched(o, order, gone);
  }

  /** Trying the next candidate extends the pass. */
  lemma EvictNext(o: Overlay, o1: Overlay, log: seq<Unlink>, log1: seq<Unlink>, order: seq<Path>, gone: seq<bool>,
                  st: Stranded, size: nat, budget: nat, last: bool)
    requires Evicting(o, o1, log, log1, order, gone, st, size, budget) && IsEvictionOrder(order, o) && |gone| < |order|
    requires order[|gone|] in o1 && HasCopy(o, order[|gone|]) && Total(CopiesOf(o1), st) + size > budget
    ensures Evicting(o, if last then WithoutCopy(o1, order[|gone|]) else o1,
                     log, log1 + [Unlink(o[order[|gone|]].localPath.value, last)], order, gone + [last], st, size, budget)
    ensures Total(CopiesOf(if last then WithoutCopy(o1, order[|gone|]) else o1), st)
         == Total(CopiesOf(o1), st) - if last then AccountedSize(o1[order[|gone|]]) else 0
  {
    hide Total, CopiesOf;
    CandidateUntouched(o, o1, log, log1, order, gone, st, size, budget);
    EvictedOneMore(o, order, gone, last);
    CopiesWithout(o1, order[|gone|]);
    TotalWithout(CopiesOf(o1), st, order[|gone|]);
  }

  /** Copies go oldest first: one that was taken expires no later than any that stayed without being tried. */
  lemma OldestGoesFirst(o: Overlay, order: seq<Path>, gone: seq<bool>, p: Path, q: Path)
    requires IsEvictionOrder(order, o) && |gone| <= |order| && AllHold(o, order)
    requires HasCopy(o, p) && !HasCopy(AfterEvicting(o, order, gone), p)
    requires HasCopy(o, q) && forall i :: 0 <= i < |gone| ==> order[i] != q
    ensures o[p].expiresAt <= o[q].expiresAt
  {
    EvictingTakes(o, order, gone, p);
    var i :| 0 <= i < |gone| && gone[i] && order[i] == p;
    var j :| 0 <= j < |order| && order[j] == q;
  }

  /** Eviction took a copy from oldest to newest, only while there was no room, and went on as long as that could help;
      `fits` says whether there is room at the end. */
  ghost predicate RoomMade(o: Overlay, o': Overlay, st: Stranded, size: nat, budget: nat, fits: bool) {
    exists order, gone ::
      && IsEvictionOrder(order, o) && |gone| <= |order| && AllHold(o, order) && o' == AfterEvicting(o, order, gone)
      && (fits <==> budget == 0 || Total(CopiesOf(o'), st) + size <= budget)
      && (budget == 0 || size > budget ==> gone == [])
      && (gone != [] ==> Total(CopiesOf(AfterEvicting(o, order, gone[..|gone| - 1])), st) + size > budget)
      && (!fits ==> size > budget || |gone| == |order|)
  }

  lemma RoomMadeBy(o: Overlay, st: Stranded, size: nat, budget: nat, order: seq<Path>, gone: seq<bool>)
    requires IsEvictionOrder(order, o) && |gone| <= |order| && AllHold(o, order)
    requires budget == 0 || size > budget ==> gone == []
    requires gone != [] ==> Total(CopiesOf(AfterEvicting(o, order, gone[..|gone| - 1])), st) + size > budget
    ensures var o' := AfterEvicting(o, order, gone);
      var fits := budget == 0 || Total(CopiesOf(o'), st) + size <= budget;
      (!fits ==> size > budget || |gone| == |order|) ==> RoomMade(o, o', st, size, budget, fits)
  {
  }

  /** There is no room for a copy of `size` bytes. */
  ghost predicate CopyRefused(o: Overlay, st: Stranded, size: nat, budget: nat) {
    budget > 0 && Total(CopiesOf(o), st) + size > budget
  }

  lemma RefusedWithoutRoom(o: Overlay, o': Overlay, st: Stranded, size: nat, budget: nat)
    requires RoomMade(o, o', st, size, budget, false)
    ensures CopyRefused(o', st, size, budget)
  {
  }
}
