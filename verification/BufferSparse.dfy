/** BufferSparse: a buffer that grows by chaining blocks of memory, read and written as if it were
    one contiguous array. */
module BufferSparses {
  import opened Arith
  import opened Bytes
  import opened FlatBytes

  /** Bytes a block spends on its own header. */
  const BLOCK_HEADER: nat := 16

  class Block {
    const mem: array<byte>
    var next: Block?

    /** The memory keeps what it held. */
    constructor (size: nat)
      ensures fresh(mem) && mem.Length == size && next == null
    {
      mem := new byte[size];
      next := null;
    }
  }

  /** Every block points to the one after it. */
  ghost predicate Linked(spine: seq<Block>)
    reads spine
  {
    forall i :: 0 <= i < |spine| ==> spine[i].next == if i + 1 < |spine| then spine[i + 1] else null
  }

  lemma NextIs(spine: seq<Block>, i: nat)
    requires i < |spine| && Linked(spine)
    ensures spine[i].next == if i + 1 < |spine| then spine[i + 1] else null
  {
  }

  ghost predicate AllZero(b: Block)
    reads b.mem
  {
    forall k :: 0 <= k < b.mem.Length ==> b.mem[k] == 0
  }

  ghost function Mems(spine: seq<Block>): set<array<byte>> {
    set b | b in spine :: b.mem
  }

  ghost function Datas(spine: seq<Block>): (ds: seq<seq<byte>>)
    reads Mems(spine)
    ensures |ds| == |spine| && forall i :: 0 <= i < |spine| ==> ds[i] == spine[i].mem[..]
  {
    seq(|spine|, i requires 0 <= i < |spine| reads Mems(spine) => spine[i].mem[..])
  }

  /** Contents depend on the blocks' memory only. */
  twostate lemma SameDatas(spine: seq<Block>)
    requires forall i :: 0 <= i < |spine| ==> spine[i].mem[..] == old(spine[i].mem[..])
    ensures Datas(spine) == old(Datas(spine))
  {
  }

  /** Flat position of block `i`. */
  ghost function Start(spine: seq<Block>, i: nat): nat
    requires i <= |spine|
  {
    if i == 0 then 0 else Start(spine, i - 1) + spine[i - 1].mem.Length
  }

  /** Chunks as long as the blocks. */
  ghost predicate Fits(spine: seq<Block>, ds: seq<seq<byte>>) {
    |ds| == |spine| && forall i :: 0 <= i < |spine| ==> |ds[i]| == spine[i].mem.Length
  }

  lemma {:induction false} StartIsFlat(spine: seq<Block>, ds: seq<seq<byte>>, i: nat)
    requires i <= |spine| && Fits(spine, ds)
    ensures |Flat(ds[..i])| == Start(spine, i)
  {
    hide Flat;
    if i == 0 {
      FlatNone();
      assert ds[..0] == [];
    } else {
      StartIsFlat(spine, ds, i - 1);
      assert ds[..i] == ds[..i - 1] + [ds[i - 1]];
      FlatJoin(ds[..i - 1], [ds[i - 1]]);
      FlatOne(ds[i - 1]);
    }
  }

  lemma NoBlocks()
    ensures Linked([]) && Start([], 0) == 0 && Flat(Datas([])) == []
  {
  }

  lemma FlatNone()
    ensures Flat([]) == []
  {
  }

  lemma TotalIsFlat(spine: seq<Block>)
    ensures |Flat(Datas(spine))| == Start(spine, |spine|)
  {
    hide Flat;
    StartIsFlat(spine, Datas(spine), |spine|);
    assert Datas(spine)[..|spine|] == Datas(spine);
  }

  lemma {:induction false} StartPrefix(spine: seq<Block>, b: Block, i: nat)
    requires i <= |spine|
    ensures Start(spine + [b], i) == Start(spine, i)
  {
    if i > 0 {
      StartPrefix(spine, b, i - 1);
    }
  }

  lemma StartAppend(spine: seq<Block>, b: Block)
    ensures Start(spine + [b], |spine| + 1) == Start(spine, |spine|) + b.mem.Length
  {
    StartPrefix(spine, b, |spine|);
  }

  lemma FlatAppend(spine: seq<Block>, b: Block)
    ensures Flat(Datas(spine + [b])) == Flat(Datas(spine)) + b.mem[..]
  {
    hide Flat;
    assert Datas(spine + [b]) == Datas(spine) + [b.mem[..]];
    FlatJoin(Datas(spine), [b.mem[..]]);
    FlatOne(b.mem[..]);
  }

  lemma {:induction false} StartGrows(spine: seq<Block>, i: nat, j: nat)
    requires i <= j <= |spine|
    ensures Start(spine, i) <= Start(spine, j)
  {
    if i < j {
      StartGrows(spine, i, j - 1);
    }
  }

  lemma PieceOfBlock(spine: seq<Block>, i: nat, at: nat, n: nat)
    requires i < |spine| && at + n <= spine[i].mem.Length
    ensures Start(spine, i) + at + n <= |Flat(Datas(spine))|
    ensures Flat(Datas(spine))[Start(spine, i) + at..Start(spine, i) + at + n] == spine[i].mem[at..at + n]
  {
    hide Flat, Start;
    StartIsFlat(spine, Datas(spine), i);
    ChunkInFlat(Datas(spine), i, at, n);
  }

  /** What a change of one block's memory does to the flat array. */
  lemma FlatAfterPut(spine: seq<Block>, ds: seq<seq<byte>>, i: nat, at: nat, x: seq<byte>)
    requires Fits(spine, ds) && i < |spine| && at + |x| <= |ds[i]|
    requires forall j :: 0 <= j < |spine| && j != i ==> spine[j].mem[..] == ds[j]
    requires spine[i].mem[..] == Patch(ds[i], at, x)
    ensures Start(spine, i) + at + |x| <= |Flat(ds)|
    ensures Flat(Datas(spine)) == Patch(Flat(ds), Start(spine, i) + at, x)
  {
    hide Flat, Start, Patch;
    StartIsFlat(spine, ds, i);
    FlatPatch(ds, i, at, x);
    assert Datas(spine) == ds[i := Patch(ds[i], at, x)];
  }

  /** Only one block holds a position. */
  lemma OneBlock(spine: seq<Block>, offset: nat, i: nat, j: nat)
    requires i < |spine| && j < |spine|
    requires Start(spine, i) <= offset < Start(spine, i) + spine[i].mem.Length
    requires Start(spine, j) <= offset < Start(spine, j) + spine[j].mem.Length
    ensures i == j
  {
    hide Start;
    if i < j { Later(spine, i, j); }
    if j < i { Later(spine, j, i); }
  }

  lemma Later(spine: seq<Block>, i: nat, j: nat)
    requires i < j < |spine|
    ensures Start(spine, i) + spine[i].mem.Length <= Start(spine, j)
  {
    hide Start;
    StartNext(spine, i);
    StartGrows(spine, i + 1, j);
  }

  lemma StartNext(spine: seq<Block>, i: nat)
    requires i < |spine|
    ensures Start(spine, i + 1) == Start(spine, i) + spine[i].mem.Length
  {
  }

  lemma AllZeroFlat(spine: seq<Block>)
    requires forall j :: 0 <= j < |spine| ==> AllZero(spine[j])
    ensures Flat(Datas(spine)) == Zeros(|Flat(Datas(spine))|)
  {
    hide Flat;
    ZeroFlat(Datas(spine));
  }

  /** The bytes start in block `i` and end after it. */
  ghost predicate Crosses(spine: seq<Block>, i: nat, offset: nat, nBytes: nat)
    requires i < |spine|
  {
    Start(spine, i) <= offset < Start(spine, i) + spine[i].mem.Length < offset + nBytes
  }

  /** Sums of unsigned 32-bit values wrap around. */
  function AddU32(a: nat, b: nat): nat {
    (a + b) % U32_LIMIT
  }

  /** The bounds test of read and write is right exactly when its sum does not wrap around to a
      value it accepts. */
  lemma BoundsTest(offset: nat, n: nat, total: nat)
    requires offset < U32_LIMIT && n < U32_LIMIT && total < U32_LIMIT
    ensures (AddU32(offset, n) <= total <==> offset + n <= total)
            <==> (offset + n < U32_LIMIT || offset + n - U32_LIMIT > total)
  {
  }

  /** Bytes a request makes the buffer grow by. */
  function GrowSize(howMany: nat, minSize: nat): nat {
    if howMany == 0 then 0 else if howMany < minSize then minSize else howMany
  }

  class BufferSparse {
    var totalAvailableBufferSpace: nat
    var minSizeOfBlocksWhengrowing: nat
    var bufferList: Block?
    var lastBuffer: Block?
    var bFreeFirstMemBlock: bool
    ghost var spine: seq<Block>

    /** The chain runs through `spine`, every block has its own memory and none is empty. */
    ghost predicate Valid()
      reads this, spine
    {
      && Chain()
      && (forall i, j :: 0 <= i < j < |spine| ==> spine[i] != spine[j] && spine[i].mem != spine[j].mem)
      && (forall i :: 0 <= i < |spine| ==> spine[i].mem.Length > 0)
      && totalAvailableBufferSpace == Start(spine, |spine|) < U32_LIMIT
      && minSizeOfBlocksWhengrowing > BLOCK_HEADER
    }

    ghost predicate Chain()
      reads this, spine
    {
      && bufferList == (if spine == [] then null else spine[0])
      && lastBuffer == (if spine == [] then null else spine[|spine| - 1])
      && Linked(spine)
    }

    /** The buffer as one flat array. */
    ghost function Contents(): seq<byte>
      reads this, Mems(spine)
    {
      Flat(Datas(spine))
    }

    lemma Size()
      requires Valid()
      ensures |Contents()| == totalAvailableBufferSpace
    {
      hide Flat;
      TotalIsFlat(spine);
    }

    /** An empty buffer that allocates its blocks. */
    constructor Setup(minSize: nat)
      requires minSize > BLOCK_HEADER
      ensures Valid() && Contents() == [] && minSizeOfBlocksWhengrowing == minSize && bFreeFirstMemBlock
    {
      totalAvailableBufferSpace := 0;
      minSizeOfBlocksWhengrowing := minSize;
      bufferList, lastBuffer, spine := null, null, [];
      bFreeFirstMemBlock := true;
    }

    /** A buffer whose first block is the caller's memory. */
    constructor SetupWithBase(base: Block, minSize: nat)
      requires minSize > BLOCK_HEADER && 0 < base.mem.Length < U32_LIMIT && base.next == null
      ensures Valid() && spine == [base] && Contents() == base.mem[..]
      ensures minSizeOfBlocksWhengrowing == minSize && !bFreeFirstMemBlock
    {
      totalAvailableBufferSpace := base.mem.Length;
      minSizeOfBlocksWhengrowing := minSize;
      bufferList, lastBuffer, spine := base, base, [base];
      bFreeFirstMemBlock := false;
      new;
      hide Flat;
      assert Start([base], 1) == Start([base], 0) + base.mem.Length;
      assert Datas(spine) == [base.mem[..]];
      FlatOne(base.mem[..]);
    }

    /** Adds one block. `granted` is the allocator's answer. */
    method GrowIncremental(howMany: nat, granted: bool) returns (ok: bool)
      requires Valid()
      requires totalAvailableBufferSpace + GrowSize(howMany, minSizeOfBlocksWhengrowing) + BLOCK_HEADER < U32_LIMIT
      modifies this, spine
      ensures Valid() && minSizeOfBlocksWhengrowing == old(minSizeOfBlocksWhengrowing)
      ensures bFreeFirstMemBlock == old(bFreeFirstMemBlock)
      ensures ok <==> howMany == 0 || granted
      ensures spine == old(spine)
              || (|spine| > 0 && spine[..|spine| - 1] == old(spine) && fresh(spine[|spine| - 1].mem))
      ensures old(Contents()) <= Contents()
      ensures |Contents()| == |old(Contents())| + if ok then GrowSize(howMany, minSizeOfBlocksWhengrowing) else 0
      ensures ok && howMany > 0 ==>
                && |Contents()| >= |old(Contents())| + howMany
                && |Contents()| >= |old(Contents())| + minSizeOfBlocksWhengrowing
                && (|Contents()| == |old(Contents())| + howMany
                    || |Contents()| == |old(Contents())| + minSizeOfBlocksWhengrowing)
      ensures howMany == 0 ==> ok && |Contents()| == |old(Contents())|
    {
      hide Flat, Datas;
      if howMany == 0 {
        return true;
      }
      if !granted {
        return false;
      }
      var b := new Block(if howMany < minSizeOfBlocksWhengrowing then minSizeOfBlocksWhengrowing else howMany);
      PrivLink(b);
      ok := true;
    }

    /** Puts a new block at the end of the chain. */
    method PrivLink(b: Block)
      requires Valid() && b.next == null && b !in spine && b.mem !in Mems(spine) && b.mem.Length > 0
      requires totalAvailableBufferSpace + b.mem.Length < U32_LIMIT
      modifies this, spine
      ensures Valid() && minSizeOfBlocksWhengrowing == old(minSizeOfBlocksWhengrowing)
      ensures bFreeFirstMemBlock == old(bFreeFirstMemBlock)
      ensures spine == old(spine) + [b] && Contents() == old(Contents()) + b.mem[..]
    {
      hide Flat, Datas;
      StartAppend(spine, b);
      totalAvailableBufferSpace := totalAvailableBufferSpace + b.mem.Length;
      if lastBuffer == null {
        bufferList, lastBuffer := b, b;
      } else {
        lastBuffer.next := b;
        lastBuffer := b;
      }
      ghost var was := spine;
      spine := spine + [b];
      assert Contents() == old(Contents()) + b.mem[..] by {
        SameDatas(was);
        FlatAppend(was, b);
      }
    }

    method GrowUpTo(finalSize: nat, granted: bool) returns (ok: bool)
      requires Valid()
      requires totalAvailableBufferSpace < finalSize ==>
                 totalAvailableBufferSpace + GrowSize(finalSize - totalAvailableBufferSpace, minSizeOfBlocksWhengrowing)
                 + BLOCK_HEADER < U32_LIMIT
      modifies this, spine
      ensures Valid() && minSizeOfBlocksWhengrowing == old(minSizeOfBlocksWhengrowing)
      ensures bFreeFirstMemBlock == old(bFreeFirstMemBlock)
      ensures ok <==> finalSize <= |old(Contents())| || granted
      ensures spine == old(spine)
              || (|spine| > 0 && spine[..|spine| - 1] == old(spine) && fresh(spine[|spine| - 1].mem))
      ensures old(Contents()) <= Contents() && (ok ==> finalSize <= |Contents()|)
      ensures !ok || finalSize <= |old(Contents())| ==> Contents() == old(Contents())
      ensures ok && finalSize > |old(Contents())| ==>
                |Contents()| == |old(Contents())| + GrowSize(finalSize - |old(Contents())|, minSizeOfBlocksWhengrowing)
    {
      hide Flat, Datas;
      Size();
      if totalAvailableBufferSpace >= finalSize {
        return true;
      }
      ok := GrowIncremental(finalSize - totalAvailableBufferSpace, granted);
    }

    /** The block that holds flat position `offset`, and the place in it. */
    method PrivSeek(offset: nat) returns (p: Block?, rest: nat, ghost i: nat)
      requires Valid() && offset < totalAvailableBufferSpace
      ensures p != null && p in spine && rest < p.mem.Length
      ensures i < |spine| && p == spine[i] && Start(spine, i) + rest == offset
    {
      p, rest, i := bufferList, offset, 0;
      while rest != 0
        invariant i < |spine| && p == spine[i] && Start(spine, i) + rest == offset
        decreases rest
      {
        if rest >= p.mem.Length {
          NextStart(i);
          rest := rest - p.mem.Length;
          p, i := p.next, i + 1;
        } else {
          break;
        }
      }
    }

    lemma NextStart(i: nat)
      requires Valid() && i < |spine|
      ensures Start(spine, i + 1) == Start(spine, i) + spine[i].mem.Length && spine[i].mem.Length > 0
      ensures Start(spine, i + 1) < totalAvailableBufferSpace ==>
                i + 1 < |spine| && spine[i + 1].mem.Length > 0 && spine[i].next == spine[i + 1]
    {
    }

    /** Copies `x` into block `p`, `at` bytes in. */
    method PrivPut(p: Block, at: nat, x: seq<byte>, ghost i: nat)
      requires Valid() && i < |spine| && p == spine[i] && at + |x| <= p.mem.Length
      modifies p.mem
      ensures Start(spine, i) + at + |x| <= |Contents()| == |old(Contents())|
      ensures Contents() == Patch(old(Contents()), Start(spine, i) + at, x)
    {
      hide Flat, Datas, Start;
      ghost var ds := Datas(spine);
      forall k | 0 <= k < |x| {
        p.mem[at + k] := x[k];
      }
      assert p.mem[..] == Patch(ds[i], at, x);
      FlatAfterPut(spine, ds, i, at, x);
    }

    /** Writes over as many blocks as it takes. */
    method PrivWrite(src: seq<byte>, offset: nat) returns (ok: bool)
      requires Valid() && |src| > 0 && offset + |src| <= totalAvailableBufferSpace
      modifies Mems(spine)
      ensures ok && |Contents()| == |old(Contents())| == totalAvailableBufferSpace
      ensures Contents() == Patch(old(Contents()), offset, src)
    {
      hide Flat, Datas, Patch, Start, Valid;
      Size();
      var p: Block?, at: nat, i: nat := PrivSeek(offset);
      var nBytesTowrite: nat, w: nat := |src|, 0;
      PatchNothing(Contents(), offset);
      while nBytesTowrite > 0
        invariant w + nBytesTowrite == |src| && nBytesTowrite > 0
        invariant i < |spine| && p == spine[i] && at < p.mem.Length && Start(spine, i) + at == offset + w
        invariant |Contents()| == |old(Contents())| && Contents() == Patch(old(Contents()), offset, src[..w])
      {
        var n := p.mem.Length - at;
        if n >= nBytesTowrite {
          PrivPut(p, at, src[w..w + nBytesTowrite], i);
          PatchMore(old(Contents()), offset, src, w, nBytesTowrite);
          return true;
        }
        PrivPut(p, at, src[w..w + n], i);
        PatchMore(old(Contents()), offset, src, w, n);
        NextStart(i);
        w := w + n;
        nBytesTowrite := nBytesTowrite - n;
        at := 0;
        p, i := p.next, i + 1;
      }
      assert false;
    }

    /** Grows when the size is not there yet and growing is allowed. */
    method PrivMakeRoom(finalSize: nat, bCangrow: bool, granted: bool) returns (ok: bool)
      requires Valid()
      requires bCangrow && totalAvailableBufferSpace < finalSize ==>
                 totalAvailableBufferSpace
                 + GrowSize(finalSize - totalAvailableBufferSpace, minSizeOfBlocksWhengrowing)
                 + BLOCK_HEADER < U32_LIMIT
      modifies this, spine
      ensures Valid() && minSizeOfBlocksWhengrowing == old(minSizeOfBlocksWhengrowing)
      ensures bFreeFirstMemBlock == old(bFreeFirstMemBlock)
      ensures spine == old(spine)
              || (|spine| > 0 && spine[..|spine| - 1] == old(spine) && fresh(spine[|spine| - 1].mem))
      ensures ok <==> finalSize <= |old(Contents())| || (bCangrow && granted)
      ensures old(Contents()) <= Contents() && (ok ==> finalSize <= |Contents()|)
      ensures !ok || finalSize <= |old(Contents())| ==> Contents() == old(Contents())
      ensures ok && finalSize > |old(Contents())| ==>
                |Contents()| == |old(Contents())| + GrowSize(finalSize - |old(Contents())|, minSizeOfBlocksWhengrowing)
    {
      hide Flat, Datas, Start, GrowSize;
      Size();
      if finalSize > totalAvailableBufferSpace {
        if !bCangrow {
          return false;
        }
        ok := GrowUpTo(finalSize, granted);
        return;
      }
      ok := true;
    }

    /** A write outside the buffer makes it grow if it may. It answers no, and changes nothing,
        exactly when it would have to grow and may not or the allocator refuses. */
    method Write(src: seq<byte>, offset: nat, bCangrow: bool, granted: bool) returns (ok: bool)
      requires Valid() && offset + |src| < U32_LIMIT
      requires bCangrow && totalAvailableBufferSpace < offset + |src| ==>
                 totalAvailableBufferSpace
                 + GrowSize(offset + |src| - totalAvailableBufferSpace, minSizeOfBlocksWhengrowing)
                 + BLOCK_HEADER < U32_LIMIT
      modifies this, spine, Mems(spine)
      ensures Valid() && minSizeOfBlocksWhengrowing == old(minSizeOfBlocksWhengrowing)
      ensures bFreeFirstMemBlock == old(bFreeFirstMemBlock)
      ensures ok <==> src == [] || offset + |src| <= |old(Contents())| || (bCangrow && granted)
      ensures !ok || src == [] ==> Contents() == old(Contents())
      ensures ok && src != [] ==> |old(Contents())| <= |Contents()| && offset + |src| <= |Contents()|
      ensures ok && src != [] ==> Contents()[offset..offset + |src|] == src
      ensures ok && src != [] ==> forall k: nat :: k < |old(Contents())| && !(offset <= k < offset + |src|) ==>
                Contents()[k] == old(Contents())[k]
      ensures offset + |src| <= |old(Contents())| ==> |Contents()| == |old(Contents())|
      ensures ok && src != [] && offset + |src| > |old(Contents())| ==>
                |Contents()| == |old(Contents())|
                                + GrowSize(offset + |src| - |old(Contents())|, minSizeOfBlocksWhengrowing)
    {
      hide Flat, Datas, Patch, Start, GrowSize, AddU32, Valid, Linked;
      if |src| == 0 {
        return true;
      }
      Size();
      AddFits(offset, |src|);
      ok := PrivMakeRoom(AddU32(offset, |src|), bCangrow, granted);
      if !ok {
        return false;
      }
      Size();
      ghost var grown := Contents();
      ok := PrivWrite(src, offset);
      PatchAll(grown, offset, src);
    }

    /** Reads over as many blocks as it takes. */
    method Read(offset: nat, nBytesToread: nat) returns (ok: bool, dest: seq<byte>)
      requires Valid() && offset + nBytesToread < U32_LIMIT
      ensures ok <==> nBytesToread == 0 || offset + nBytesToread <= |Contents()|
      ensures dest == if ok && nBytesToread > 0 then Contents()[offset..offset + nBytesToread] else []
    {
      hide Flat, Datas, AddU32, Start, Valid;
      dest := [];
      if nBytesToread == 0 {
        return true, [];
      }
      Size();
      AddFits(offset, nBytesToread);
      if AddU32(offset, nBytesToread) > totalAvailableBufferSpace {
        return false, [];
      }
      var left: nat := nBytesToread;
      var p: Block?, at: nat, i: nat := PrivSeek(offset);
      Size();
      while left > 0
        invariant |dest| + left == nBytesToread && left > 0
        invariant i < |spine| && p == spine[i] && at < p.mem.Length && Start(spine, i) + at == offset + |dest|
        invariant offset + |dest| <= |Contents()| && dest == Contents()[offset..offset + |dest|]
      {
        var n := p.mem.Length - at;
        if n >= left {
          PieceOfBlock(spine, i, at, left);
          SliceJoin(Contents(), offset, |dest|, left);
          return true, dest + p.mem[at..at + left];
        }
        PieceOfBlock(spine, i, at, n);
        SliceJoin(Contents(), offset, |dest|, n);
        NextStart(i);
        dest := dest + p.mem[at..at + n];
        left := left - n;
        at := 0;
        p, i := p.next, i + 1;
      }
      assert false;
    }

    /** Where flat position `offset` is, when `nBytesRequested` bytes from there on are in one block. */
    method GetBufferAtOffset(offset: nat, nBytesRequested: nat) returns (p: Block?, at: nat)
      requires Valid() && offset + nBytesRequested < U32_LIMIT
      ensures p != null ==>
                offset + nBytesRequested <= |Contents()| && at + nBytesRequested <= p.mem.Length && p in spine
                && p.mem[at..at + nBytesRequested] == Contents()[offset..offset + nBytesRequested]
      ensures p == null <==> nBytesRequested == 0 || offset + nBytesRequested > |Contents()|
                             || exists i: nat :: i < |spine| && Crosses(spine, i, offset, nBytesRequested)
    {
      hide Flat, Datas, AddU32, Start;
      p, at := null, 0;
      if nBytesRequested == 0 {
        return;
      }
      Size();
      AddFits(offset, nBytesRequested);
      if AddU32(offset, nBytesRequested) > totalAvailableBufferSpace {
        return;
      }
      var q, rest, i := PrivSeek(offset);
      if rest + nBytesRequested > q.mem.Length {
        assert Crosses(spine, i, offset, nBytesRequested);
        return;
      }
      PieceOfBlock(spine, i, rest, nBytesRequested);
      forall j: nat | j < |spine| && Start(spine, j) <= offset < Start(spine, j) + spine[j].mem.Length
        ensures j == i
      {
        OneBlock(spine, offset, i, j);
      }
      p, at := q, rest;
    }

    method Zero()
      requires Valid()
      modifies Mems(spine)
      ensures Valid() && Contents() == Zeros(|old(Contents())|)
    {
      hide Flat, Valid, Start;
      Size();
      PrivZeroBlocks();
      AllZeroFlat(spine);
      Size();
    }

    method PrivZeroBlocks()
      requires Valid()
      modifies Mems(spine)
      ensures forall j :: 0 <= j < |spine| ==> AllZero(spine[j])
    {
      hide Flat, Start, Valid, AllZero;
      ChainStart();
      var p := bufferList;
      ghost var i: nat := 0;
      while p != null
        invariant i <= |spine| && p == (if i < |spine| then spine[i] else null)
        invariant forall j :: 0 <= j < i ==> AllZero(spine[j])
        decreases |spine| - i
      {
        PrivZeroBlock(p, i);
        ChainNext(i);
        p, i := p.next, i + 1;
      }
    }

    lemma ChainStart()
      requires Valid()
      ensures bufferList == if spine == [] then null else spine[0]
    {
      hide Linked, Start;
    }

    lemma ChainNext(i: nat)
      requires Valid() && i < |spine|
      ensures spine[i].next == if i + 1 < |spine| then spine[i + 1] else null
    {
      hide Start;
    }

    method PrivZeroBlock(p: Block, ghost i: nat)
      requires Valid() && i < |spine| && spine[i] == p
      modifies p.mem
      ensures forall j :: 0 <= j <= i ==> (j < i ==> old(AllZero(spine[j]))) ==> AllZero(spine[j])
    {
      hide Linked, Start;
      forall k | 0 <= k < p.mem.Length {
        p.mem[k] := 0;
      }
    }

    /** The blocks given back: all but a first one that is the caller's memory. */
    method Unsetup() returns (freed: seq<Block>)
      requires Valid()
      modifies this
      ensures Valid() && spine == [] && Contents() == []
      ensures freed == if old(spine) == [] || old(bFreeFirstMemBlock) then old(spine) else old(spine)[1..]
    {
      hide Flat, Datas, Linked, Start;
      freed := [];
      ghost var i := 0;
      if bufferList != null && !bFreeFirstMemBlock {
        NextIs(spine, 0);
        bufferList, i := bufferList.next, 1;
      }
      ghost var from := i;
      while bufferList != null
        invariant spine == old(spine) && from <= i <= |spine|
        invariant bufferList == (if i < |spine| then spine[i] else null)
        invariant Linked(spine)
        invariant minSizeOfBlocksWhengrowing == old(minSizeOfBlocksWhengrowing)
        invariant freed == spine[from..i]
        decreases |spine| - i
      {
        NextIs(spine, i);
        freed := freed + [bufferList];
        bufferList, i := bufferList.next, i + 1;
      }
      totalAvailableBufferSpace := 0;
      bFreeFirstMemBlock := false;
      bufferList, lastBuffer, spine := null, null, [];
      NoBlocks();
    }
  }

  lemma AddFits(a: nat, b: nat)
    requires a + b < U32_LIMIT
    ensures AddU32(a, b) == a + b
  {
  }

  lemma PatchNothing(s: seq<byte>, at: nat)
    requires at <= |s|
    ensures Patch(s, at, []) == s
  {
  }

  lemma PatchMore(s: seq<byte>, at: nat, x: seq<byte>, w: nat, n: nat)
    requires w + n <= |x| && at + |x| <= |s|
    ensures Patch(Patch(s, at, x[..w]), at + w, x[w..w + n]) == Patch(s, at, x[..w + n])
    ensures w + n == |x| ==> Patch(s, at, x[..w + n]) == Patch(s, at, x)
  {
    hide Patch;
    PatchTwice(s, at, x[..w], x[w..w + n]);
    assert x[..w] + x[w..w + n] == x[..w + n];
    if w + n == |x| { assert x[..w + n] == x; }
  }

  lemma PatchAll(s: seq<byte>, at: nat, x: seq<byte>)
    requires at + |x| <= |s|
    ensures Patch(s, at, x)[at..at + |x|] == x
    ensures forall k: nat :: k < |s| && !(at <= k < at + |x|) ==> Patch(s, at, x)[k] == s[k]
  {
  }

  lemma SliceJoin(s: seq<byte>, at: nat, a: nat, b: nat)
    requires at + a + b <= |s|
    ensures s[at..at + a] + s[at + a..at + a + b] == s[at..at + (a + b)]
  {
  }

  lemma {:induction false} ZeroFlat(ds: seq<seq<byte>>)
    requires forall i, k :: 0 <= i < |ds| && 0 <= k < |ds[i]| ==> ds[i][k] == 0
    ensures Flat(ds) == Zeros(|Flat(ds)|)
  {
    if ds != [] {
      ZeroFlat(ds[1..]);
    }
  }
}
