/** AllocTracker: byte ranges, first fit or best fit, over a coalescing free list; and its
    agreement with FreespaceTracker. */
module AllocTrackers {
  import opened Arith
  import opened RangeList
  import opened RangeMerge
  import opened RangePool
  import Freespace = FreespaceTrackers

  /** Best fit cannot see a range of 2^32 - 1 bytes that is larger than asked for. */
  predicate Unseen(l: seq<Range>, howMuch: nat) {
    l == [Range(0, U32MAX)] && howMuch < U32MAX
  }

  lemma LargestIsAlone(l: seq<Range>, i: nat, memSize: nat)
    requires Canon(l) && Within(l, memSize) && memSize <= U32MAX && i < |l| && l[i].len >= U32MAX
    ensures l == [Range(0, U32MAX)]
  {
    ghost var neighbours := [l[0], l[|l| - 1]];
    assert neighbours[0].len > 0 && neighbours[1].len > 0;
  }

  class AllocTracker {
    var freeBlockList: seq<Range>
    var memSize: nat
    var memAllocated: nat
    ghost var live: set<Range>

    ghost predicate Valid()
      reads this
    {
      memSize <= U32MAX && Pool(freeBlockList, live, memSize, memAllocated)
    }

    constructor (totAvailMemory: nat)
      requires totAvailMemory <= U32MAX
      ensures memSize == totAvailMemory && memAllocated == 0 && live == {}
      ensures freeBlockList == [Range(0, totAvailMemory)]
      ensures Valid() <==> 0 < totAvailMemory
    {
      memSize, memAllocated, live := totAvailMemory, 0, {};
      freeBlockList := [Range(0, totAvailMemory)];
      new;
      if 0 < totAvailMemory {
        PoolStart(memSize);
      } else {
        assert freeBlockList[0].len == 0;
      }
    }

    function GetMemLeft(): int
      reads this
    {
      memSize - memAllocated
    }

    method Alloc(howMuch: nat, bFindBest: bool) returns (ok: bool, out: Range)
      requires Valid() && howMuch > 0
      modifies this
      ensures Valid() && memSize == old(memSize)
      ensures !ok ==> unchanged(this) && out == Range(0, 0)
      ensures !bFindBest ==> ok == (FirstFit(old(freeBlockList), howMuch) < |old(freeBlockList)|)
      ensures bFindBest ==>
        ok == (FirstFit(old(freeBlockList), howMuch) < |old(freeBlockList)| && !Unseen(old(freeBlockList), howMuch))
      ensures ok ==> exists i: nat ::
        && (if bFindBest then IsBestFit(old(freeBlockList), howMuch, i) else i == FirstFit(old(freeBlockList), howMuch))
        && i < |old(freeBlockList)| && howMuch <= old(freeBlockList)[i].len
        && freeBlockList == Take(old(freeBlockList), i, howMuch)
        && out == Range(old(freeBlockList)[i].start, howMuch) && live == old(live) + {out}
      ensures memAllocated == old(memAllocated) + out.len
    {
      hide Pool, Canon, Take, IsBestFit;
      out := Range(0, 0);
      if howMuch > GetMemLeft() {
        TooLittleLeft(freeBlockList, live, memSize, memAllocated, howMuch);
        return false, out;
      }
      ghost var l := freeBlockList;
      var iBest: nat;
      if bFindBest {
        iBest := PrivFindBest(howMuch);
      } else {
        iBest := PrivFindFirst(howMuch);
      }
      if iBest == |freeBlockList| {
        return false, out;
      }
      out := Range(freeBlockList[iBest].start, howMuch);
      PoolAlloc(freeBlockList, live, memSize, memAllocated, iBest, howMuch);
      PrivTake(iBest, howMuch);
      live := live + {out};
      memAllocated := memAllocated + howMuch;
      ok := true;
    }

    method PrivTake(i: nat, n: nat)
      requires i < |freeBlockList| && 0 < n <= freeBlockList[i].len
      modifies this`freeBlockList
      ensures freeBlockList == Take(old(freeBlockList), i, n)
    {
      freeBlockList := freeBlockList[i := Range(freeBlockList[i].start + n, freeBlockList[i].len - n)];
      if freeBlockList[i].len == 0 {
        freeBlockList := freeBlockList[..i] + freeBlockList[i + 1..];
      }
    }

    /** The length of the list stands for u32MAX: nothing found. */
    method PrivFindFirst(howMuch: nat) returns (iBest: nat)
      ensures iBest == FirstFit(freeBlockList, howMuch)
    {
      var numEntry := |freeBlockList|;
      for i := 0 to numEntry
        invariant forall k :: 0 <= k < i ==> freeBlockList[k].len < howMuch
      {
        if freeBlockList[i].len >= howMuch {
          FirstFitUnique(freeBlockList, howMuch, i);
          return i;
        }
      }
      FirstFitUnique(freeBlockList, howMuch, numEntry);
      return numEntry;
    }

    method PrivFindBest(howMuch: nat) returns (iBest: nat)
      requires Valid()
      ensures iBest == |freeBlockList| <==>
        FirstFit(freeBlockList, howMuch) == |freeBlockList| || Unseen(freeBlockList, howMuch)
      ensures iBest <= |freeBlockList|
      ensures iBest < |freeBlockList| ==>
                IsBestFit(freeBlockList, howMuch, iBest) && freeBlockList[iBest].len >= howMuch
    {
      PoolCanon(freeBlockList, live, memSize, memAllocated);
      PoolWithin(freeBlockList, live, memSize, memAllocated);
      ghost var l := freeBlockList;
      hide Pool, Canon, Within, FirstFit, IsBestFit, Unseen, NoneSeen, BestSeen;
      NoneYet(l, howMuch);
      var numEntry := |freeBlockList|;
      iBest := numEntry;
      var iBestSize := U32MAX;
      for i := 0 to numEntry
        invariant iBest == numEntry ==> iBestSize == U32MAX && NoneSeen(l, howMuch, i)
        invariant iBest < numEntry ==> iBest < i && l[iBest].len == iBestSize < U32MAX && BestSeen(l, howMuch, i, iBest)
        invariant iBest <= numEntry
        invariant forall k :: 0 <= k < i ==> l[k].len != howMuch
      {
        SeeOne(l, howMuch, i, iBest, numEntry);
        if freeBlockList[i].len >= howMuch {
          if freeBlockList[i].len == howMuch {
            NotUnseen(l, i, howMuch);
            ExactIsBest(l, howMuch, i);
            return i;
          }
          if freeBlockList[i].len < iBestSize {
            iBestSize := freeBlockList[i].len;
            iBest := i;
          }
        }
      }
      if iBest == numEntry {
        NothingSeen(l, howMuch, memSize);
      } else {
        SeenIsLarge(l, howMuch, numEntry, iBest);
        NotUnseen(l, iBest, howMuch);
        BestIs(l, howMuch, iBest);
      }
    }

    method Dealloc(h: Range)
      requires Valid() && (h.len == 0 || h.start >= memSize || h in live)
      modifies this
      ensures Valid() && memSize == old(memSize)
      ensures if h.len == 0 || h.start >= memSize then unchanged(this)
              else freeBlockList == Insert(old(freeBlockList), h) && live == old(live) - {h}
                   && memAllocated + h.len == old(memAllocated)
    {
      if h.len == 0 {
        return;
      }
      if h.start >= memSize {
        return;
      }
      hide Pool, Insert, Canon, ApartFromAll;
      PoolCanon(freeBlockList, live, memSize, memAllocated);
      PoolFree(freeBlockList, live, memSize, memAllocated, h);
      PrivGiveBack(h);
      memAllocated := memAllocated - h.len;
      live := live - {h};
    }

    method PrivGiveBack(h: Range)
      requires Canon(freeBlockList) && ApartFromAll(freeBlockList, h) && h.len > 0
      modifies this`freeBlockList
      ensures freeBlockList == Insert(old(freeBlockList), h)
    {
      hide Insert, Canon, ApartFromAll, IsGap, Covers, NearCanon;
      var blockEnd := h.start + h.len;
      ghost var l := freeBlockList;
      var numEntry := |freeBlockList|;
      for i := 0 to numEntry
        invariant freeBlockList == l
        invariant forall k :: 0 <= k < i ==> l[k].start < blockEnd
      {
        if freeBlockList[i].start == blockEnd {
          FindsGap(l, h, i);
          GrowFront(l, h, i);
          freeBlockList := freeBlockList[i := Range(h.start, freeBlockList[i].len + h.len)];
          PrivMergeAround(i, l, h);
          return;
        }
        if freeBlockList[i].start > blockEnd {
          FindsGap(l, h, i);
          if i > 0 {
            if freeBlockList[i - 1].start + freeBlockList[i - 1].len == h.start {
              GrowBack(l, h, i - 1);
              var before := freeBlockList[i - 1];
              freeBlockList := freeBlockList[i - 1 := Range(before.start, before.len + h.len)];
              PrivMergeAround(i - 1, l, h);
              return;
            }
          }
          PutAlone(l, h, i);
          freeBlockList := freeBlockList[..i] + [h] + freeBlockList[i..];
          return;
        }
      }
      FindsGap(l, h, numEntry);
      PutBetween(l, h, numEntry);
      freeBlockList := freeBlockList + [h];
      assert freeBlockList == l[..numEntry] + [h] + l[numEntry..];
      PrivMergeAround(numEntry, l, h);
    }

    method PrivMergeAround(iEntry: nat, ghost l: seq<Range>, ghost r: Range)
      requires iEntry < |freeBlockList| && NearCanon(freeBlockList, iEntry)
      requires Canon(l) && r.len > 0 && ApartFromAll(l, r)
      requires forall b: int :: Covers(freeBlockList, b) <==> Covers(l, b) || In(r, b)
      modifies this`freeBlockList
      ensures freeBlockList == Insert(l, r)
    {
      hide NearCanon, Canon, ApartFromAll, Insert, Covers, SameCover;
      ghost var near := freeBlockList;
      PrivTryMerge(iEntry);
      MergedIsInsert(l, r, near, freeBlockList);
    }

    method PrivTryMerge(iEntry: nat)
      requires iEntry < |freeBlockList| && NearCanon(freeBlockList, iEntry)
      modifies this`freeBlockList
      ensures Canon(freeBlockList) && SameCover(freeBlockList, old(freeBlockList))
      decreases |freeBlockList|
    {
      hide SameCover, NearCanon;
      SameCoverRefl(freeBlockList);
      if iEntry > 0 {
        var e := freeBlockList[iEntry - 1].start + freeBlockList[iEntry - 1].len;
        if freeBlockList[iEntry].start == e {
          JoinedNear(freeBlockList, iEntry - 1, iEntry);
          JoinedSame(freeBlockList, iEntry - 1);
          var before := freeBlockList[iEntry - 1];
          freeBlockList := freeBlockList[iEntry - 1 := Range(before.start, before.len + freeBlockList[iEntry].len)];
          freeBlockList := freeBlockList[..iEntry] + freeBlockList[iEntry + 1..];
          assert freeBlockList == Joined(old(freeBlockList), iEntry - 1);
          SameCoverTrans(old(freeBlockList), freeBlockList);
          PrivTryMerge(iEntry - 1);
          return;
        }
      }
      if iEntry < |freeBlockList| - 1 {
        var e := freeBlockList[iEntry].start + freeBlockList[iEntry].len;
        if freeBlockList[iEntry + 1].start == e {
          JoinedNear(freeBlockList, iEntry, iEntry);
          JoinedSame(freeBlockList, iEntry);
          var entry := freeBlockList[iEntry];
          freeBlockList := freeBlockList[iEntry := Range(entry.start, entry.len + freeBlockList[iEntry + 1].len)];
          freeBlockList := freeBlockList[..iEntry + 1] + freeBlockList[iEntry + 2..];
          assert freeBlockList == Joined(old(freeBlockList), iEntry);
          SameCoverTrans(old(freeBlockList), freeBlockList);
          PrivTryMerge(iEntry);
          return;
        }
      }
      NearIsCanon(freeBlockList, iEntry);
    }
  }

  lemma TooLittleLeft(free: seq<Range>, live: set<Range>, max: nat, taken: nat, howMuch: nat)
    requires Pool(free, live, max, taken) && howMuch > max - taken
    ensures FirstFit(free, howMuch) == |free|
  {
    forall i | 0 <= i < |free|
      ensures free[i].len < howMuch
    {
      EachWithinTotal(free, i);
    }
  }

  lemma PoolWithin(free: seq<Range>, live: set<Range>, max: nat, taken: nat)
    requires Pool(free, live, max, taken)
    ensures Within(free, max)
  {
  }

  lemma NotUnseen(l: seq<Range>, i: nat, howMuch: nat)
    requires i < |l| && l[i].len >= howMuch && (l[i].len < U32MAX || howMuch >= U32MAX)
    ensures !Unseen(l, howMuch) && FirstFit(l, howMuch) < |l|
  {
  }

  /** None of the first `n` ranges is one the search can take. */
  ghost predicate NoneSeen(l: seq<Range>, howMuch: nat, n: nat) {
    n <= |l| && forall k :: 0 <= k < n ==> l[k].len < howMuch || l[k].len >= U32MAX
  }

  /** `i` is the first smallest of those among the first `n`. */
  ghost predicate BestSeen(l: seq<Range>, howMuch: nat, n: nat, i: nat) {
    && i < n <= |l| && howMuch < l[i].len < U32MAX
    && (forall k :: 0 <= k < n && l[k].len >= howMuch ==> l[i].len <= l[k].len)
    && (forall k :: 0 <= k < i && l[k].len >= howMuch ==> l[i].len < l[k].len)
  }

  lemma NoneYet(l: seq<Range>, howMuch: nat)
    ensures NoneSeen(l, howMuch, 0)
  {
  }

  /** One range more, which does not match exactly. */
  lemma SeeOne(l: seq<Range>, howMuch: nat, i: nat, best: nat, none: nat)
    requires i < |l| == none
    ensures NoneSeen(l, howMuch, i) && (l[i].len < howMuch || l[i].len >= U32MAX) ==> NoneSeen(l, howMuch, i + 1)
    ensures NoneSeen(l, howMuch, i) && howMuch < l[i].len < U32MAX ==> BestSeen(l, howMuch, i + 1, i)
    ensures BestSeen(l, howMuch, i, best) && (l[i].len < howMuch || l[best].len <= l[i].len)
            ==> BestSeen(l, howMuch, i + 1, best)
    ensures BestSeen(l, howMuch, i, best) && howMuch < l[i].len < l[best].len ==> BestSeen(l, howMuch, i + 1, i)
  {
  }

  lemma ExactIsBest(l: seq<Range>, howMuch: nat, i: nat)
    requires i < |l| && l[i].len == howMuch && forall k :: 0 <= k < i ==> l[k].len != howMuch
    ensures IsBestFit(l, howMuch, i)
  {
  }

  lemma SeenIsLarge(l: seq<Range>, howMuch: nat, n: nat, i: nat)
    requires BestSeen(l, howMuch, n, i)
    ensures i < |l| && howMuch < l[i].len < U32MAX
  {
  }

  lemma BestIs(l: seq<Range>, howMuch: nat, i: nat)
    requires BestSeen(l, howMuch, |l|, i)
    ensures IsBestFit(l, howMuch, i)
  {
  }

  lemma NothingSeen(l: seq<Range>, howMuch: nat, memSize: nat)
    requires Canon(l) && Within(l, memSize) && memSize <= U32MAX
    requires NoneSeen(l, howMuch, |l|) && forall k :: 0 <= k < |l| ==> l[k].len != howMuch
    ensures FirstFit(l, howMuch) == |l| || Unseen(l, howMuch)
  {
    var i := FirstFit(l, howMuch);
    if i < |l| {
      LargestIsAlone(l, i, memSize);
    }
  }

  // ---------------------------------------------------------------- the two trackers agree

  datatype Op = DoAlloc(howMuch: nat) | DoFree(r: Range)
  datatype Answer = Refused | Granted(r: Range) | Freed

  /** Runs the same calls on both trackers, frees naming ranges that are live at that moment. Every
      answer is the same, and so is the free list before the run and after every call. */
  method RunBoth(f: Freespace.FreespaceTracker, a: AllocTracker, ops: seq<Op>)
    returns (fs: seq<Answer>, as_: seq<Answer>, fLists: seq<seq<Range>>, aLists: seq<seq<Range>>)
    requires f.Valid() && a.Valid() && f.sizeofBlock == 1
    requires f.freerangeList == a.freeBlockList && f.live == {} == a.live && f.numMaxBlocks == a.memSize
    requires forall k :: 0 <= k < |ops| && ops[k].DoAlloc? ==> ops[k].howMuch > 0
    modifies f, a
    ensures f.Valid() && a.Valid() && f.freerangeList == a.freeBlockList && f.live == a.live
    ensures fs == as_ && |fs| == |ops|
    ensures fLists == aLists && |fLists| == |ops| + 1
    ensures fLists[0] == old(f.freerangeList) && fLists[|ops|] == f.freerangeList
  {
    hide Pool, Take, Insert;
    fs, as_ := [], [];
    fLists, aLists := [f.freerangeList], [a.freeBlockList];
    var held: set<Range> := {};
    for k := 0 to |ops|
      invariant f.Valid() && a.Valid() && f.sizeofBlock == 1
      invariant f.freerangeList == a.freeBlockList && f.live == a.live && f.numMaxBlocks == a.memSize
      invariant fs == as_ && |fs| == k && held == a.live
      invariant fLists == aLists && |fLists| == k + 1
      invariant fLists[0] == old(f.freerangeList) && fLists[k] == f.freerangeList
    {
      match ops[k] {
        case DoAlloc(howMuch) =>
          var x, y := AllocBoth(f, a, howMuch);
          fs, as_ := fs + [x], as_ + [y];
          if y.Granted? {
            held := held + {y.r};
          }
        case DoFree(r) =>
          if r in held {
            FreeBoth(f, a, r);
            held := held - {r};
          }
          fs, as_ := fs + [Freed], as_ + [Freed];
      }
      fLists, aLists := fLists + [f.freerangeList], aLists + [a.freeBlockList];
    }
  }

  method AllocBoth(f: Freespace.FreespaceTracker, a: AllocTracker, howMuch: nat) returns (x: Answer, y: Answer)
    requires f.Valid() && a.Valid() && f.sizeofBlock == 1 && howMuch > 0
    requires f.freerangeList == a.freeBlockList && f.live == a.live && f.numMaxBlocks == a.memSize
    modifies f, a
    ensures f.Valid() && a.Valid() && f.sizeofBlock == 1 && f.numMaxBlocks == a.memSize
    ensures f.freerangeList == a.freeBlockList && f.live == a.live && x == y
    ensures a.live == if y.Granted? then old(a.live) + {y.r} else old(a.live)
  {
    hide Pool, Take, Insert;
    assert Freespace.Blocks(howMuch, 1) == howMuch;
    var okF, info := f.Alloc(howMuch);
    var okA, h := a.Alloc(howMuch, false);
    x := if okF then Granted(Range(info.offset, info.size)) else Refused;
    y := if okA then Granted(h) else Refused;
  }

  method FreeBoth(f: Freespace.FreespaceTracker, a: AllocTracker, r: Range)
    requires f.Valid() && a.Valid() && f.sizeofBlock == 1 && r in a.live
    requires f.freerangeList == a.freeBlockList && f.live == a.live && f.numMaxBlocks == a.memSize
    modifies f, a
    ensures f.Valid() && a.Valid() && f.sizeofBlock == 1 && f.numMaxBlocks == a.memSize
    ensures f.freerangeList == a.freeBlockList && f.live == a.live == old(a.live) - {r}
  {
    LiveStartsInside(a, r);
    hide Pool, Insert;
    f.Free(Freespace.AllocInfo(r.start, r.len), r);
    a.Dealloc(r);
  }

  lemma LiveStartsInside(a: AllocTracker, r: Range)
    requires a.Valid() && r in a.live
    ensures r.len > 0 && r.start < a.memSize <= U32MAX
  {
  }
}
