/** FreespaceTracker: first-fit allocation of blocks over a coalescing free list. */
module FreespaceTrackers {
  import opened Arith
  import opened RangeList
  import opened RangeMerge
  import opened RangePool

  datatype AllocInfo = AllocInfo(offset: nat, size: nat)

  /** Blocks needed for a number of bytes. */
  function Blocks(sizeInByte: nat, sizeofBlock: nat): nat
    requires sizeofBlock > 0
  {
    var n := sizeInByte / sizeofBlock;
    if n * sizeofBlock < sizeInByte then n + 1 else n
  }

  lemma BlocksPositive(sizeInByte: nat, sizeofBlock: nat)
    requires sizeofBlock > 0
    ensures Blocks(sizeInByte, sizeofBlock) > 0 <==> sizeInByte > 0
    ensures Blocks(sizeInByte, sizeofBlock) * sizeofBlock >= sizeInByte
    ensures sizeInByte > 0 ==> (Blocks(sizeInByte, sizeofBlock) - 1) * sizeofBlock < sizeInByte
  {
    var n := sizeInByte / sizeofBlock;
    DivBounds(sizeInByte, sizeofBlock);
    if n == 0 && sizeInByte > 0 {
      assert n * sizeofBlock == 0;
    }
    if n > 0 {
      MulLe(n - 1, n, sizeofBlock);
    }
  }

  class FreespaceTracker {
    var freerangeList: seq<Range>
    var sizeofBlock: nat
    var numMaxBlocks: nat
    var numAllocatedBlock: nat
    ghost var live: set<Range>

    ghost predicate Valid()
      reads this
    {
      && sizeofBlock > 0 && numMaxBlocks * sizeofBlock <= U32MAX
      && Pool(freerangeList, live, numMaxBlocks, numAllocatedBlock)
    }

    /** With no room for a single block the list would start with an empty range. */
    constructor (totalBufferSize: nat, sizeofABlock: nat)
      requires 0 < sizeofABlock && totalBufferSize <= U32MAX
      ensures sizeofBlock == sizeofABlock && numMaxBlocks == totalBufferSize / sizeofABlock
      ensures freerangeList == [Range(0, numMaxBlocks)] && live == {} && numAllocatedBlock == 0
      ensures Valid() <==> sizeofABlock <= totalBufferSize
    {
      sizeofBlock := sizeofABlock;
      numMaxBlocks := totalBufferSize / sizeofABlock;
      numAllocatedBlock := 0;
      freerangeList := [Range(0, totalBufferSize / sizeofABlock)];
      live := {};
      new;
      DivBounds(totalBufferSize, sizeofABlock);
      if sizeofABlock <= totalBufferSize {
        PoolStart(numMaxBlocks);
      } else {
        assert freerangeList[0].len == 0;
      }
    }

    method PrivTryMerge(iEntry: nat)
      requires iEntry < |freerangeList| && NearCanon(freerangeList, iEntry)
      modifies this`freerangeList
      ensures Canon(freerangeList) && SameCover(freerangeList, old(freerangeList))
      decreases |freerangeList|
    {
      hide SameCover, NearCanon;
      SameCoverRefl(freerangeList);
      if iEntry > 0 {
        var e := freerangeList[iEntry - 1].start + freerangeList[iEntry - 1].len;
        if freerangeList[iEntry].start == e {
          JoinedNear(freerangeList, iEntry - 1, iEntry);
          JoinedSame(freerangeList, iEntry - 1);
          var before := freerangeList[iEntry - 1];
          freerangeList := freerangeList[iEntry - 1 := Range(before.start, before.len + freerangeList[iEntry].len)];
          freerangeList := freerangeList[..iEntry] + freerangeList[iEntry + 1..];
          assert freerangeList == Joined(old(freerangeList), iEntry - 1);
          SameCoverTrans(old(freerangeList), freerangeList);
          PrivTryMerge(iEntry - 1);
          return;
        }
      }
      if iEntry < |freerangeList| - 1 {
        var e := freerangeList[iEntry].start + freerangeList[iEntry].len;
        if freerangeList[iEntry + 1].start == e {
          JoinedNear(freerangeList, iEntry, iEntry);
          JoinedSame(freerangeList, iEntry);
          var entry := freerangeList[iEntry];
          freerangeList := freerangeList[iEntry := Range(entry.start, entry.len + freerangeList[iEntry + 1].len)];
          freerangeList := freerangeList[..iEntry + 1] + freerangeList[iEntry + 2..];
          assert freerangeList == Joined(old(freerangeList), iEntry);
          SameCoverTrans(old(freerangeList), freerangeList);
          PrivTryMerge(iEntry);
          return;
        }
      }
      NearIsCanon(freerangeList, iEntry);
    }

    /** Takes whole blocks from the first range that has enough of them. */
    method Alloc(sizeInByte: nat) returns (ok: bool, out: AllocInfo)
      requires Valid()
      modifies this
      ensures Valid() && sizeofBlock == old(sizeofBlock) && numMaxBlocks == old(numMaxBlocks)
      ensures var n := Blocks(sizeInByte, sizeofBlock);
              var i := FirstFit(old(freerangeList), n);
              && ok == (i < |old(freerangeList)|)
              && (ok ==>
                    && freerangeList == Take(old(freerangeList), i, n)
                    && out == AllocInfo(old(freerangeList)[i].start * sizeofBlock, n * sizeofBlock)
                    && live == (if n == 0 then old(live) else old(live) + {Range(old(freerangeList)[i].start, n)})
                    && numAllocatedBlock == old(numAllocatedBlock) + n)
              && (!ok ==> unchanged(this) && out == AllocInfo(U32MAX, 0))
    {
      hide Pool, Canon, Take, Blocks;
      var nSlotToAlloc := PrivBlocks(sizeInByte);
      var n := |freerangeList|;
      for i := 0 to n
        invariant unchanged(this)
        invariant forall k :: 0 <= k < i ==> freerangeList[k].len < nSlotToAlloc
      {
        if freerangeList[i].len >= nSlotToAlloc {
          FirstFitUnique(freerangeList, nSlotToAlloc, i);
          out := AllocInfo(freerangeList[i].start * sizeofBlock, nSlotToAlloc * sizeofBlock);
          PrivTake(i, nSlotToAlloc);
          ok := true;
          return;
        }
      }
      FirstFitUnique(freerangeList, nSlotToAlloc, n);
      ok, out := false, AllocInfo(U32MAX, 0);
    }

    method PrivBlocks(sizeInByte: nat) returns (nSlotToAlloc: nat)
      requires sizeofBlock > 0
      ensures nSlotToAlloc == Blocks(sizeInByte, sizeofBlock)
    {
      nSlotToAlloc := sizeInByte / sizeofBlock;
      if nSlotToAlloc * sizeofBlock < sizeInByte {
        nSlotToAlloc := nSlotToAlloc + 1;
      }
    }

    method PrivTake(i: nat, n: nat)
      requires Valid() && i < |freerangeList| && n <= freerangeList[i].len
      modifies this`freerangeList, this`numAllocatedBlock, this`live
      ensures Valid() && freerangeList == Take(old(freerangeList), i, n)
      ensures live == if n == 0 then old(live) else old(live) + {Range(old(freerangeList)[i].start, n)}
      ensures numAllocatedBlock == old(numAllocatedBlock) + n
    {
      hide Pool, Canon;
      PoolCanon(freerangeList, live, numMaxBlocks, numAllocatedBlock);
      if n == 0 {
        TakeNone(freerangeList, i);
      } else {
        PoolAlloc(freerangeList, live, numMaxBlocks, numAllocatedBlock, i, n);
        live := live + {Range(freerangeList[i].start, n)};
      }
      freerangeList := freerangeList[i := Range(freerangeList[i].start + n, freerangeList[i].len - n)];
      if freerangeList[i].len == 0 {
        freerangeList := freerangeList[..i] + freerangeList[i + 1..];
      }
      numAllocatedBlock := numAllocatedBlock + n;
    }

    /** Bytes of a live range: some, starting below the value that means none. */
    lemma LiveBytes(r: Range)
      requires Valid() && r in live
      ensures r.start * sizeofBlock < U32MAX && r.len * sizeofBlock > 0
    {
      hide Canon, Within;
      MulLe(r.start + 1, numMaxBlocks, sizeofBlock);
      MulLe(r.start, r.start, sizeofBlock);
      MulLe(1, r.len, sizeofBlock);
    }

    /** Gives back a live range. An empty or failed allocation is ignored; a live range never is. */
    method Free(info: AllocInfo, ghost r: Range)
      requires Valid()
      requires info.size == 0 || info.offset == U32MAX
               || (r in live && info == AllocInfo(r.start * sizeofBlock, r.len * sizeofBlock))
      modifies this
      ensures Valid() && sizeofBlock == old(sizeofBlock) && numMaxBlocks == old(numMaxBlocks)
      ensures info.size == 0 || info.offset == U32MAX ==> unchanged(this)
      ensures r in old(live) && info == AllocInfo(r.start * sizeofBlock, r.len * sizeofBlock) ==>
                && freerangeList == Insert(old(freerangeList), r) && live == old(live) - {r}
                && numAllocatedBlock + r.len == old(numAllocatedBlock)
    {
      if r in live { LiveBytes(r); }
      if info.size == 0 || info.offset == U32MAX {
        return;
      }
      hide Pool, Insert, Canon, ApartFromAll;
      PoolCanon(freerangeList, live, numMaxBlocks, numAllocatedBlock);
      PoolFree(freerangeList, live, numMaxBlocks, numAllocatedBlock, r);
      MulDiv(r.start, sizeofBlock);
      MulDiv(r.len, sizeofBlock);
      var numFreedBlocks := PrivFree(info, r);
      numAllocatedBlock := numAllocatedBlock - numFreedBlocks;
      live := live - {r};
    }

    method PrivFree(info: AllocInfo, ghost r: Range) returns (numFreed: nat)
      requires Canon(freerangeList) && ApartFromAll(freerangeList, r) && sizeofBlock > 0 && info.size > 0
      requires r.len > 0 && info.offset / sizeofBlock == r.start && info.size / sizeofBlock == r.len
      modifies this`freerangeList
      ensures numFreed == r.len && freerangeList == Insert(old(freerangeList), r)
    {
      hide Insert, Canon, ApartFromAll;
      var firstBlockToFree := info.offset / sizeofBlock;
      var numBlockToFree := info.size / sizeofBlock;
      PrivGiveBack(firstBlockToFree, numBlockToFree, r);
      numFreed := numBlockToFree;
    }

    method PrivGiveBack(firstBlockToFree: nat, numBlockToFree: nat, ghost r: Range)
      requires Canon(freerangeList) && ApartFromAll(freerangeList, r) && r.len > 0
      requires r == Range(firstBlockToFree, numBlockToFree)
      modifies this`freerangeList
      ensures freerangeList == Insert(old(freerangeList), r)
    {
      var lastBlock := firstBlockToFree + numBlockToFree;
      ghost var l := freerangeList;
      hide Insert, Canon, ApartFromAll, IsGap, Covers, NearCanon;
      var n := |freerangeList|;
      for i := 0 to n
        invariant freerangeList == l
        invariant forall k :: 0 <= k < i ==> l[k].start < lastBlock
      {
        if freerangeList[i].start == lastBlock {
          FindsGap(l, r, i);
          GrowFront(l, r, i);
          freerangeList := freerangeList[i := Range(firstBlockToFree, freerangeList[i].len + numBlockToFree)];
          PrivMergeAround(i, l, r);
          return;
        }
        if freerangeList[i].start > lastBlock {
          FindsGap(l, r, i);
          if i > 0 {
            if freerangeList[i - 1].start + freerangeList[i - 1].len == firstBlockToFree {
              PrivGrowBack(i - 1, numBlockToFree, l, r);
              return;
            }
          }
          PutAlone(l, r, i);
          freerangeList := freerangeList[..i] + [Range(firstBlockToFree, numBlockToFree)] + freerangeList[i..];
          return;
        }
      }
      FindsGap(l, r, n);
      if n > 0 {
        if freerangeList[n - 1].start + freerangeList[n - 1].len == firstBlockToFree {
          PrivGrowBack(n - 1, numBlockToFree, l, r);
          return;
        }
      }
      PutAlone(l, r, n);
      freerangeList := freerangeList + [Range(firstBlockToFree, numBlockToFree)];
      assert freerangeList == l[..n] + [r] + l[n..];
    }

    method PrivGrowBack(i: nat, numBlockToFree: nat, ghost l: seq<Range>, ghost r: Range)
      requires freerangeList == l && r.len == numBlockToFree && i < |l| && Canon(l) && r.len > 0 && ApartFromAll(l, r)
      requires IsGap(l, r, i + 1) && l[i].End() == r.start
      modifies this`freerangeList
      ensures freerangeList == Insert(l, r)
    {
      hide Insert, Canon, ApartFromAll, IsGap, Covers, NearCanon;
      GrowBack(l, r, i);
      freerangeList := freerangeList[i := Range(freerangeList[i].start, freerangeList[i].len + numBlockToFree)];
      PrivMergeAround(i, l, r);
    }

    method PrivMergeAround(iEntry: nat, ghost l: seq<Range>, ghost r: Range)
      requires iEntry < |freerangeList| && NearCanon(freerangeList, iEntry)
      requires Canon(l) && r.len > 0 && ApartFromAll(l, r)
      requires forall b: int :: Covers(freerangeList, b) <==> Covers(l, b) || In(r, b)
      modifies this`freerangeList
      ensures freerangeList == Insert(l, r)
    {
      hide NearCanon, Canon, ApartFromAll, Insert, Covers, SameCover;
      ghost var near := freerangeList;
      PrivTryMerge(iEntry);
      MergedIsInsert(l, r, near, freerangeList);
    }
  }
}
