/** Generational handles: four fields packed in thirty-two bits, and the chunked list that
    issues them. Masks and shifts are stated as division and remainder. */
module Handles {
  import opened Arith
  import opened Options

  const END: nat := 0xFFFF

  function Pow2(n: nat): (r: nat)
    ensures r >= 1
  {
    if n == 0 then 1 else 2 * Pow2(n - 1)
  }

  /** `(hi << k) | lo`, for `m` the k-th power of two and `lo` below it. The field above bit k of `x` is
      `x >> k`, which is `Quot(x, m)`, and the field below it `x & (m - 1)`, which is `Rest(x, m)`. */
  function Join(hi: nat, m: nat, lo: nat): nat {
    hi * m + lo
  }

  /** Widths in bits of the index, chunk and counter fields; the rest is padding. */
  datatype Widths = Widths(a: nat, b: nat, c: nat) {
    predicate Ok() {
      1 <= b <= a <= 16 && 1 <= c <= 16 && a + b + c <= 32
    }

    function D(): nat
      requires Ok()
    {
      32 - (a + b + c)
    }

    function NumMaxChunk(): nat {
      Pow2(b)
    }

    function NumMaxHandlePerChunk(): nat
      requires Ok()
    {
      Pow2(a - b)
    }

    function Pack(index: nat, chunk: nat, counter: nat, extra: nat): nat
      requires Ok()
    {
      Join(Join(Join(index, Pow2(b), chunk), Pow2(c), counter), Pow2(D()), extra)
    }

    function ExtraValue(id: nat): nat
      requires Ok()
    {
      Rest(id, Pow2(D()))
    }

    function CounterValue(id: nat): nat
      requires Ok()
    {
      Rest(Quot(id, Pow2(D())), Pow2(c))
    }

    function ChunkValue(id: nat): nat
      requires Ok()
    {
      Rest(Quot(Quot(id, Pow2(D())), Pow2(c)), Pow2(b))
    }

    function IndexValue(id: nat): nat
      requires Ok()
    {
      Quot(Quot(Quot(id, Pow2(D())), Pow2(c)), Pow2(b))
    }

    /** Each setter cuts the value to the width of its field and leaves the other fields alone. */
    function SetIndexValue(id: nat, v: nat): nat
      requires Ok()
    {
      Pack(Rest(v, Pow2(a)), ChunkValue(id), CounterValue(id), ExtraValue(id))
    }

    function SetChunkValue(id: nat, v: nat): nat
      requires Ok()
    {
      Pack(IndexValue(id), Rest(v, Pow2(b)), CounterValue(id), ExtraValue(id))
    }

    function SetCounterValue(id: nat, v: nat): nat
      requires Ok()
    {
      Pack(IndexValue(id), ChunkValue(id), Rest(v, Pow2(c)), ExtraValue(id))
    }

    function IncCounterValue(id: nat): nat
      requires Ok()
    {
      SetCounterValue(id, CounterValue(id) + 1)
    }
  }

  lemma SplitJoin(hi: nat, m: nat, lo: nat)
    requires lo < m
    ensures Quot(Join(hi, m, lo), m) == hi && Rest(Join(hi, m, lo), m) == lo
  {
    var x := hi * m + lo;
    var q, r := x / m, x % m;
    assert q * m + r == x;
    MulOrder(q, hi, m, lo);
    MulOrder(hi, q, m, r);
  }

  /** Reading back the fields of a packed handle. */
  lemma Unpack(w: Widths, index: nat, chunk: nat, counter: nat, extra: nat)
    requires w.Ok() && chunk < Pow2(w.b) && counter < Pow2(w.c) && extra < Pow2(w.D())
    ensures var id := w.Pack(index, chunk, counter, extra);
            && w.IndexValue(id) == index && w.ChunkValue(id) == chunk
            && w.CounterValue(id) == counter && w.ExtraValue(id) == extra
  {
    hide Pow2, Join, Quot, Rest;
    SplitJoin(Join(Join(index, Pow2(w.b), chunk), Pow2(w.c), counter), Pow2(w.D()), extra);
    SplitJoin(Join(index, Pow2(w.b), chunk), Pow2(w.c), counter);
    SplitJoin(index, Pow2(w.b), chunk);
  }

  lemma {:induction false} Pow2Add(m: nat, n: nat)
    ensures Pow2(m + n) == Pow2(m) * Pow2(n)
    decreases m
  {
    if m > 0 {
      Pow2Add(m - 1, n);
      assert 2 * (Pow2(m - 1) * Pow2(n)) == (2 * Pow2(m - 1)) * Pow2(n);
    }
  }

  /** Where the fields are: the index has the high bits, then chunk and counter, then the padding. */
  lemma Layout(w: Widths, index: nat, chunk: nat, counter: nat, extra: nat)
    requires w.Ok()
    ensures w.Pack(index, chunk, counter, extra)
            == index * Pow2(w.b + w.c + w.D()) + chunk * Pow2(w.c + w.D()) + counter * Pow2(w.D()) + extra
  {
    var p, q, r := Pow2(w.b), Pow2(w.c), Pow2(w.D());
    Pow2Add(w.c, w.D());
    Pow2Add(w.b, w.c + w.D());
    ThreeDigits(index, p, chunk, q, counter, r);
    assert w.Pack(index, chunk, counter, extra) == ((index * p + chunk) * q + counter) * r + extra by {
      hide Pow2;
    }
    hide Pow2, Join;
  }

  lemma ThreeDigits(x: nat, p: nat, y: nat, q: nat, z: nat, r: nat)
    ensures ((x * p + y) * q + z) * r == x * (p * (q * r)) + y * (q * r) + z * r
  {
    Distribute((x * p + y) * q, z, r);
    MulAssoc(x * p + y, q, r);
    Distribute(x * p, y, q * r);
    MulAssoc(x, p, q * r);
  }

  lemma {:induction false} Pow2Mono(m: nat, n: nat)
    requires m <= n
    ensures Pow2(m) <= Pow2(n)
    decreases n
  {
    if m < n {
      Pow2Mono(m, n - 1);
    }
  }

  lemma JoinBound(hi: nat, m: nat, lo: nat, j: nat, k: nat)
    requires hi < Pow2(j) && m == Pow2(k) && lo < m
    ensures Join(hi, m, lo) < Pow2(j + k)
  {
    hide Pow2;
    Pow2Add(j, k);
    MulLe(hi + 1, Pow2(j), m);
    assert (hi + 1) * m == hi * m + m;
  }

  /** A handle of a slot never is the invalid handle. */
  lemma NeverInvalid(w: Widths, index: nat, chunk: nat, counter: nat)
    requires w.Ok() && index < w.NumMaxHandlePerChunk() && chunk < Pow2(w.b) && counter < Pow2(w.c)
    ensures w.Pack(index, chunk, counter, 0) < U32MAX
  {
    hide Pow2, Join;
    JoinBound(index, Pow2(w.b), chunk, w.a - w.b, w.b);
    JoinBound(Join(index, Pow2(w.b), chunk), Pow2(w.c), counter, w.a, w.c);
    JoinBound(Join(Join(index, Pow2(w.b), chunk), Pow2(w.c), counter), Pow2(w.D()), 0, w.a + w.c, w.D());
    Pow2Mono(32 - w.b, 31);
    SmallPowers();
  }

  lemma SmallPowers()
    ensures Pow2(1) == 2 && Pow2(15) == 32768 && Pow2(31) == 0x8000_0000
  {
    assert Pow2(1) == 2 * Pow2(0);
    hide Pow2;
    Pow2Add(1, 1);
    Pow2Add(2, 1);
    Pow2Add(3, 2);
    Pow2Add(5, 5);
    Pow2Add(10, 5);
    Pow2Add(15, 15);
    Pow2Add(30, 1);
  }

  // ---------------------------------------------------------------- one chunk

  datatype Record = Record(curCounter: nat, nextFree: nat)

  function HeadOf(chain: seq<nat>): nat {
    if chain == [] then END else chain[0]
  }

  ghost predicate Distinct(s: seq<nat>) {
    forall i, j :: 0 <= i < j < |s| ==> s[i] != s[j]
  }

  /** `chain` is what following `nextFree` from `first` visits, and it ends. */
  ghost predicate Linked(recs: seq<Record>, first: nat, chain: seq<nat>) {
    && (forall j :: 0 <= j < |chain| ==> chain[j] < |recs| && chain[j] != END)
    && first == HeadOf(chain)
    && (forall j :: 0 <= j < |chain| ==> recs[chain[j]].nextFree == HeadOf(chain[j + 1..]))
  }

  /** State of a chunk: memory, head of the free chain, the chain itself, and how many times
      each slot has been released. */
  ghost predicate ChunkOk(recs: Option<seq<Record>>, first: nat, chain: seq<nat>, released: seq<nat>, per: nat,
                          counters: nat)
    requires counters > 0
  {
    && |released| == per && Distinct(chain) && (forall j :: 0 <= j < |chain| ==> chain[j] < per)
    && match recs
       case None => first == 0 && chain == seq(per, i => i) && (forall i :: 0 <= i < per ==> released[i] == 0)
       case Some(rs) =>
         && |rs| == per && Linked(rs, first, chain)
         && forall i :: 0 <= i < per ==> rs[i].curCounter == (1 + released[i]) % counters
  }

  /** A freshly allocated chunk: every slot free, in order. */
  function NewChunk(per: nat): seq<Record>
    requires per > 0
  {
    seq(per, (i: nat) => Record(1, if i == per - 1 then END else i + 1))
  }

  lemma NewChunkOk(per: nat, released: seq<nat>, counters: nat)
    requires 0 < per <= 32768 && counters >= 2
    requires ChunkOk(None, 0, seq(per, i => i), released, per, counters)
    ensures ChunkOk(Some(NewChunk(per)), 0, seq(per, i => i), released, per, counters)
  {
    var chain := seq(per, i => i);
    forall j | 0 <= j < |chain|
      ensures NewChunk(per)[chain[j]].nextFree == HeadOf(chain[j + 1..])
    {
    }
  }

  /** Taking the head of the chain. */
  lemma PopOk(rs: seq<Record>, first: nat, chain: seq<nat>, released: seq<nat>, per: nat, counters: nat)
    requires counters > 0 && ChunkOk(Some(rs), first, chain, released, per, counters) && chain != []
    ensures first < per && ChunkOk(Some(rs), rs[first].nextFree, chain[1..], released, per, counters)
  {
    var rest := chain[1..];
    assert rs[chain[0]].nextFree == HeadOf(chain[0 + 1..]);
    forall j | 0 <= j < |rest|
      ensures rs[rest[j]].nextFree == HeadOf(rest[j + 1..])
    {
      assert rest[j + 1..] == chain[j + 2..];
    }
  }

  /** Putting a slot that is in use at the head of the chain. */
  lemma PushOk(rs: seq<Record>, first: nat, chain: seq<nat>, released: seq<nat>, per: nat, counters: nat, i: nat)
    requires counters > 0 && ChunkOk(Some(rs), first, chain, released, per, counters) && i < per <= 32768 && i !in chain
    ensures ChunkOk(Some(rs[i := Record((1 + released[i] + 1) % counters, first)]), i, [i] + chain,
                    released[i := released[i] + 1], per, counters)
  {
    LinkedPush(rs, first, chain, i, Record((1 + released[i] + 1) % counters, first));
    hide Linked;
  }

  lemma LinkedPush(rs: seq<Record>, first: nat, chain: seq<nat>, i: nat, r: Record)
    requires Linked(rs, first, chain) && i < |rs| && i !in chain && r.nextFree == first
    requires i != END
    ensures Linked(rs[i := r], i, [i] + chain)
  {
    var rs', chain' := rs[i := r], [i] + chain;
    forall j | 0 <= j < |chain'|
      ensures rs'[chain'[j]].nextFree == HeadOf(chain'[j + 1..])
    {
      if j == 0 {
        assert chain'[1..] == chain;
      } else {
        assert chain'[j + 1..] == chain[j..];
        assert chain[j - 1] in chain;
      }
    }
  }

  // ---------------------------------------------------------------- the list

  /** What a handle was issued for: a slot, and how many releases the slot had seen then. */
  datatype Ticket = Ticket(chunk: nat, index: nat, count: nat)

  function HandleOf(w: Widths, t: Ticket): nat
    requires w.Ok()
  {
    w.Pack(t.index, t.chunk, (1 + t.count) % Pow2(w.c), 0)
  }

  /** Handles of different live slots are different. */
  lemma HandlesDiffer(w: Widths, t: Ticket, u: Ticket)
    requires w.Ok() && t.chunk < Pow2(w.b) && u.chunk < Pow2(w.b)
    requires HandleOf(w, t) == HandleOf(w, u)
    ensures t.chunk == u.chunk && t.index == u.index
  {
    Unpack(w, t.index, t.chunk, (1 + t.count) % Pow2(w.c), 0);
    Unpack(w, u.index, u.chunk, (1 + u.count) % Pow2(w.c), 0);
  }

  ghost function Row(c: nat, m: nat): (r: set<(nat, nat)>)
    ensures forall p :: p in r <==> p.0 == c && p.1 < m
    ensures |r| == m
  {
    if m == 0 then {} else Row(c, m - 1) + {(c, m - 1)}
  }

  /** The pairs (c, i) with c < n and i < m. */
  ghost function Grid(n: nat, m: nat): (r: set<(nat, nat)>)
    ensures forall p :: p in r <==> p.0 < n && p.1 < m
    ensures |r| == n * m
  {
    if n == 0 then {}
    else
      assert n * m == (n - 1) * m + m;
      Grid(n - 1, m) + Row(n - 1, m)
  }

  lemma SubsetOfFullSize<T>(s: set<T>, t: set<T>)
    requires s <= t
    ensures |s| <= |t| && (|s| == |t| ==> s == t)
  {
    assert |t| == |s| + |t - s| by { assert t == s + (t - s); }
  }

  ghost predicate ListOk(w: Widths, chunkList: seq<Option<seq<Record>>>, firstFree: seq<nat>,
                         chains: seq<seq<nat>>, released: seq<seq<nat>>) {
    && w.Ok()
    && |chunkList| == |firstFree| == |chains| == |released| == w.NumMaxChunk()
    && forall k :: 0 <= k < |chunkList| ==>
         ChunkOk(chunkList[k], firstFree[k], chains[k], released[k], w.NumMaxHandlePerChunk(), Pow2(w.c))
  }

  /** A slot put at the head of its chain: the list is in order exactly when it was not on the chain. */
  lemma PutFirst(w: Widths, chunkList: seq<Option<seq<Record>>>, firstFree: seq<nat>, chains: seq<seq<nat>>,
                 released: seq<seq<nat>>, k: nat, i: nat)
    requires ListOk(w, chunkList, firstFree, chains, released)
    requires k < |chunkList| && chunkList[k].Some? && i < w.NumMaxHandlePerChunk()
    ensures |chunkList[k].value| == |released[k]| == w.NumMaxHandlePerChunk() && Pow2(w.c) > 0
    ensures var counter := (1 + released[k][i] + 1) % Pow2(w.c);
            ListOk(w, chunkList[k := Some(chunkList[k].value[i := Record(counter, firstFree[k])])], firstFree[k := i],
                   chains[k := [i] + chains[k]], released[k := BumpAt(released[k], i)])
            <==> i !in chains[k]
  {
    PerChunkBound(w);
    ChunkAt(w, chunkList, firstFree, chains, released, k);
    var recs, per, counters := chunkList[k].value, w.NumMaxHandlePerChunk(), Pow2(w.c);
    hide Pow2, ChunkOk, ListOk;
    CounterMeans(recs, firstFree[k], chains[k], released[k], per, counters);
    var r := Record((1 + released[k][i] + 1) % counters, firstFree[k]);
    OneChunk(w, chunkList, firstFree, chains, released, k, Some(recs[i := r]), i, [i] + chains[k],
             BumpAt(released[k], i));
    if i in chains[k] {
      NotTwice(Some(recs[i := r]), i, chains[k], BumpAt(released[k], i), per, counters);
    } else {
      PushOk(recs, firstFree[k], chains[k], released[k], per, counters, i);
    }
  }

  lemma ChunkAt(w: Widths, chunkList: seq<Option<seq<Record>>>, firstFree: seq<nat>, chains: seq<seq<nat>>,
                released: seq<seq<nat>>, k: nat)
    requires ListOk(w, chunkList, firstFree, chains, released) && k < |chunkList|
    ensures |chunkList| == |firstFree| == |chains| == |released| && Pow2(w.c) > 0
    ensures ChunkOk(chunkList[k], firstFree[k], chains[k], released[k], w.NumMaxHandlePerChunk(), Pow2(w.c))
  {
    hide Pow2, ChunkOk;
  }

  /** One chunk replaced: the list is in order exactly when that chunk is. */
  lemma OneChunk(w: Widths, chunkList: seq<Option<seq<Record>>>, firstFree: seq<nat>, chains: seq<seq<nat>>,
                 released: seq<seq<nat>>, k: nat, recs: Option<seq<Record>>, first: nat, chain: seq<nat>, rel: seq<nat>)
    requires ListOk(w, chunkList, firstFree, chains, released) && k < |chunkList|
    ensures |chunkList| == |firstFree| == |chains| == |released| && Pow2(w.c) > 0
    ensures ListOk(w, chunkList[k := recs], firstFree[k := first], chains[k := chain], released[k := rel])
            <==> ChunkOk(recs, first, chain, rel, w.NumMaxHandlePerChunk(), Pow2(w.c))
  {
    hide Pow2, ChunkOk;
    if ListOk(w, chunkList[k := recs], firstFree[k := first], chains[k := chain], released[k := rel]) {
      ChunkAt(w, chunkList[k := recs], firstFree[k := first], chains[k := chain], released[k := rel], k);
    }
  }

  lemma NotTwice(recs: Option<seq<Record>>, i: nat, chain: seq<nat>, released: seq<nat>, per: nat, counters: nat)
    requires counters > 0 && i in chain
    ensures !ChunkOk(recs, i, [i] + chain, released, per, counters)
  {
    OnlyOnce(i, chain);
  }

  function BumpAt(s: seq<nat>, i: nat): seq<nat>
    requires i < |s|
  {
    s[i := s[i] + 1]
  }

  /** One record points to `next` now; its counter may be another one. */
  ghost predicate Relinked(before: seq<Option<seq<Record>>>, after: seq<Option<seq<Record>>>, chunk: nat, index: nat,
                           next: nat) {
    && chunk < |before| && before[chunk].Some? && index < |before[chunk].value|
    && chunk < |after| && after[chunk].Some? && index < |after[chunk].value|
    && after == before[chunk := Some(before[chunk].value[index := after[chunk].value[index]])]
    && after[chunk].value[index].nextFree == next
  }

  lemma OnlyOnce(i: nat, chain: seq<nat>)
    ensures i in chain ==> !Distinct([i] + chain)
  {
    if i in chain {
      var j :| 0 <= j < |chain| && chain[j] == i;
      assert ([i] + chain)[0] == ([i] + chain)[j + 1];
    }
  }

  /** After a slot that is free was put on its chain again, following `nextFree` comes back to it: there
      is no chain that ends any more, so the slot would be handed out again and again. */
  lemma NoChainAnyMore(rs: seq<Record>, first: nat, chain: seq<nat>, i: nat, r: Record, other: seq<nat>)
    requires Linked(rs, first, chain) && Distinct(chain) && i in chain && r.nextFree == first && i < |rs|
    ensures !Linked(rs[i := r], i, other)
  {
    if Linked(rs[i := r], i, other) {
      var n: nat :| n < |chain| && chain[n] == i;
      LastEnds(rs[i := r], i, other);
      GoesRound(rs, first, chain, n, r, other, |other| - 1);
      assert false;
    }
  }

  lemma LastEnds(recs: seq<Record>, first: nat, chain: seq<nat>)
    requires Linked(recs, first, chain)
    ensures chain != [] ==> recs[chain[|chain| - 1]].nextFree == END
  {
    assert chain[|chain|..] == [];
  }

  /** What is followed stays among the slots up to the one put back. */
  lemma {:induction false} GoesRound(rs: seq<Record>, first: nat, chain: seq<nat>, n: nat, r: Record,
                                     other: seq<nat>, k: int)
    requires Linked(rs, first, chain) && Distinct(chain) && n < |chain| && r.nextFree == first
    requires Linked(rs[chain[n] := r], chain[n], other) && k < |other|
    ensures other != []
    ensures k >= 0 ==> other[k] in chain[..n + 1] && rs[chain[n] := r][other[k]].nextFree in chain[..n + 1]
    decreases k
  {
    var i := chain[n];
    assert other != [] && other[0] == i;
    if k >= 0 {
      if k == 0 {
        assert chain[..n + 1][n] == i;
      } else {
        GoesRound(rs, first, chain, n, r, other, k - 1);
        assert rs[i := r][other[k - 1]].nextFree == HeadOf(other[k..]) == other[k];
      }
      var j :| 0 <= j <= n && chain[j] == other[k];
      if j == n {
        assert chain[..n + 1][0] == first;
      } else {
        assert rs[chain[j]].nextFree == HeadOf(chain[j + 1..]) == chain[j + 1];
        assert chain[..n + 1][j + 1] == chain[j + 1];
      }
    }
  }

  class HandleList {
    const w: Widths
    var chunkList: seq<Option<seq<Record>>>
    var firstFree: seq<nat>
    ghost var chains: seq<seq<nat>>
    ghost var released: seq<seq<nat>>

    ghost predicate Valid()
      reads this
    {
      ListOk(w, chunkList, firstFree, chains, released)
    }

    /** The slot is in use. */
    ghost predicate Live(chunk: nat, index: nat)
      reads this
      requires Valid()
    {
      chunk < |chunkList| && index < w.NumMaxHandlePerChunk() && chunkList[chunk].Some? && index !in chains[chunk]
    }

    ghost function LiveSlots(): set<(nat, nat)>
      reads this
      requires Valid()
    {
      set s | s in Grid(w.NumMaxChunk(), w.NumMaxHandlePerChunk()) && Live(s.0, s.1)
    }

    /** The handle was issued by this list at some time. */
    ghost predicate Issued(t: Ticket)
      reads this
      requires Valid()
    {
      t.chunk < |chunkList| && t.index < w.NumMaxHandlePerChunk() && chunkList[t.chunk].Some?
      && t.count <= released[t.chunk][t.index]
    }

    /** How many times the slot has been released since then. */
    ghost function Since(t: Ticket): nat
      reads this
      requires Valid() && Issued(t)
    {
      released[t.chunk][t.index] - t.count
    }

    /** The handle still belongs to whoever got it. */
    ghost predicate Current(t: Ticket)
      reads this
      requires Valid()
    {
      Issued(t) && Live(t.chunk, t.index) && Since(t) == 0
    }

    constructor (widths: Widths)
      requires widths.Ok()
      ensures w == widths && Valid()
      ensures forall c, i :: !Live(c, i)
    {
      w := widths;
      var per := widths.NumMaxHandlePerChunk();
      chunkList := seq(widths.NumMaxChunk(), _ => None);
      firstFree := seq(widths.NumMaxChunk(), _ => 0);
      chains := seq(widths.NumMaxChunk(), _ => seq(per, i => i));
      released := seq(widths.NumMaxChunk(), _ => seq(per, _ => 0));
      new;
      PrivAllocChunk(0);
      forall c, i | 0 <= c < |chunkList| && 0 <= i < w.NumMaxHandlePerChunk()
        ensures i in chains[c]
      {
        assert chains[c][i] == i;
      }
    }

    method PrivAllocChunk(which: nat)
      requires Valid() && which < |chunkList| && chunkList[which].None?
      modifies this`chunkList, this`firstFree
      ensures Valid() && chunkList[which].Some? && firstFree == old(firstFree)
      ensures chunkList == old(chunkList)[which := chunkList[which]]
    {
      hide ChunkOk, Pow2, NewChunk;
      PerChunkBound(w);
      EmptyChunk(firstFree[which], chains[which], released[which], w.NumMaxHandlePerChunk(), Pow2(w.c));
      NewChunkOk(w.NumMaxHandlePerChunk(), released[which], Pow2(w.c));
      firstFree := firstFree[which := 0];
      assert firstFree == old(firstFree);
      chunkList := chunkList[which := Some(NewChunk(w.NumMaxHandlePerChunk()))];
    }

    /** Fails only when every slot is in use. */
    method Reserve() returns (ok: bool, handle: nat, ghost t: Ticket)
      requires Valid()
      modifies this
      ensures Valid()
      ensures !ok ==> unchanged(this) && handle == U32MAX
      ensures !ok <==> forall k :: 0 <= k < |old(chains)| ==> old(chains)[k] == []
      ensures ok ==>
        && !old(Live(t.chunk, t.index)) && Current(t) && handle == HandleOf(w, t) != U32MAX
        && t.index in old(chains)[t.chunk] && (forall k :: 0 <= k < t.chunk ==> old(chains)[k] == [])
        && chains == old(chains)[t.chunk := old(chains)[t.chunk][1..]] && old(chains)[t.chunk][0] == t.index
        && released == old(released)
        && forall k :: 0 <= k < |chunkList| && k != t.chunk ==> chunkList[k] == old(chunkList)[k]
    {
      hide ChunkOk, Pow2;
      var nChunk := w.NumMaxChunk();
      t := Ticket(0, 0, 0);
      for i := 0 to nChunk
        invariant unchanged(this)
        invariant forall k :: 0 <= k < i ==> chains[k] == []
      {
        FirstMeans(chunkList[i], firstFree[i], chains[i], released[i], w.NumMaxHandlePerChunk(), Pow2(w.c));
        if firstFree[i] != END {
          if chunkList[i].None? {
            PrivAllocChunk(i);
          }
          handle, t := PrivPop(i);
          ok := true;
          return;
        }
      }
      ok, handle := false, U32MAX;
    }

    method PrivPop(i: nat) returns (handle: nat, ghost t: Ticket)
      requires Valid() && i < |chunkList| && chunkList[i].Some? && chains[i] != []
      modifies this`firstFree, this`chains
      ensures Valid() && t.chunk == i && t.index == old(chains)[i][0] && t.index !in chains[i]
      ensures Issued(t) && Since(t) == 0 && handle == HandleOf(w, t) != U32MAX
      ensures chains == old(chains)[i := old(chains)[i][1..]]
    {
      hide ChunkOk, Pow2;
      var recs := chunkList[i].value;
      PopOk(recs, firstFree[i], chains[i], released[i], w.NumMaxHandlePerChunk(), Pow2(w.c));
      CounterMeans(recs, firstFree[i], chains[i], released[i], w.NumMaxHandlePerChunk(), Pow2(w.c));
      var indexReturned := firstFree[i];
      var ret := recs[indexReturned];
      firstFree := firstFree[i := ret.nextFree];
      chains := chains[i := chains[i][1..]];
      t := Ticket(i, indexReturned, released[i][indexReturned]);
      handle := BuildHandle(w, i, indexReturned, ret.curCounter);
    }

    /** The slot a handle resolves to. An old handle resolves again exactly when its slot has
        been released a multiple of 2^C times since. */
    method FromHandleToPointer(handle: nat, ghost t: Ticket) returns (slot: Option<(nat, nat)>)
      requires Valid() && (handle == U32MAX || (Issued(t) && handle == HandleOf(w, t)))
      ensures handle == U32MAX ==> slot.None?
      ensures handle != U32MAX ==> slot == if Since(t) % Pow2(w.c) == 0 then Some((t.chunk, t.index)) else None
    {
      hide ChunkOk, Pow2;
      if handle == U32MAX {
        return None;
      }
      Unpack(w, t.index, t.chunk, (1 + t.count) % Pow2(w.c), 0);
      var chunk, index, counter := w.ChunkValue(handle), w.IndexValue(handle), w.CounterValue(handle);
      var recs := chunkList[chunk].value;
      CounterMeans(recs, firstFree[chunk], chains[chunk], released[chunk], w.NumMaxHandlePerChunk(), Pow2(w.c));
      CountersAgree(t.count, released[chunk][index], Pow2(w.c));
      if counter != recs[index].curCounter {
        return None;
      }
      slot := Some((chunk, index));
    }

    /** A stale handle changes nothing while its slot has not been released 2^C times since. One that
        resolves puts its slot at the head of the chain whether or not it is there already; the list stays
        valid exactly when it was not. */
    method Release(handle: nat, ghost t: Ticket) returns (handle': nat)
      requires Valid() && (handle == U32MAX || (Issued(t) && handle == HandleOf(w, t)))
      modifies this
      ensures handle' == U32MAX
      ensures handle == U32MAX || old(Since(t)) % Pow2(w.c) != 0 ==> unchanged(this)
      ensures handle != U32MAX && old(Since(t)) % Pow2(w.c) == 0 ==>
                && chains == old(chains)[t.chunk := [t.index] + old(chains)[t.chunk]]
                && released == old(released)[t.chunk := BumpAt(old(released)[t.chunk], t.index)]
                && firstFree == old(firstFree)[t.chunk := t.index]
                && Relinked(old(chunkList), chunkList, t.chunk, t.index, old(firstFree)[t.chunk])
                && (Valid() <==> old(Live(t.chunk, t.index)))
                && (Valid() ==> Issued(t) && Since(t) == old(Since(t)) + 1 && !Live(t.chunk, t.index))
    {
      hide ChunkOk, Pow2;
      handle' := U32MAX;
      var slot := FromHandleToPointer(handle, t);
      if slot.None? {
        return;
      }
      Unpack(w, t.index, t.chunk, (1 + t.count) % Pow2(w.c), 0);
      var chunk, index := w.ChunkValue(handle), w.IndexValue(handle);
      PrivPush(chunk, index, handle, t);
    }

    method PrivPush(chunk: nat, index: nat, handle: nat, ghost t: Ticket)
      requires Valid() && chunk == t.chunk && index == t.index && Issued(t) && handle == HandleOf(w, t)
      requires Since(t) % Pow2(w.c) == 0
      modifies this
      ensures chains == old(chains)[chunk := [index] + old(chains)[chunk]]
      ensures released == old(released)[chunk := BumpAt(old(released)[chunk], index)]
      ensures firstFree == old(firstFree)[chunk := index]
      ensures Relinked(old(chunkList), chunkList, chunk, index, old(firstFree)[chunk])
      ensures Valid() <==> old(Live(chunk, index))
      ensures Valid() ==> Issued(t) && Since(t) == old(Since(t)) + 1 && !Live(chunk, index)
    {
      hide ChunkOk, Pow2, ListOk;
      PutFirst(w, chunkList, firstFree, chains, released, chunk, index);
      IsReleased(t);
      NextCounter(w, t, released[chunk][index]);
      var recs := chunkList[chunk].value;
      var curCounter := w.CounterValue(w.IncCounterValue(handle));
      chunkList := chunkList[chunk := Some(recs[index := Record(curCounter, firstFree[chunk])])];
      firstFree := firstFree[chunk := index];
      chains := chains[chunk := [index] + chains[chunk]];
      released := released[chunk := BumpAt(released[chunk], index)];
    }

    lemma IsReleased(t: Ticket)
      requires Valid() && Issued(t)
      ensures w.Ok() && |chunkList| == |firstFree| == |chains| == |released| == w.NumMaxChunk()
    {
      hide Pow2, ChunkOk;
    }

    /** What the invariant says about each chunk, in plain terms. */
    lemma ChainsHoldTheFreeSlots(k: nat, recs: seq<Record>)
      requires Valid() && k < |chunkList| && chunkList[k] == Some(recs)
      ensures Linked(recs, firstFree[k], chains[k]) && Distinct(chains[k])
      ensures forall i :: 0 <= i < w.NumMaxHandlePerChunk() ==> (i in chains[k] <==> !Live(k, i))
    {
      hide Linked, Distinct, Pow2;
    }

    /** No free slot anywhere, which is when `Reserve` fails, means 2^A slots in use. */
    lemma FullMeans()
      requires Valid()
      ensures (forall k :: 0 <= k < |chains| ==> chains[k] == []) <==> |LiveSlots()| == Pow2(w.a)
    {
      FreeIsInGrid();
      GridSize();
      hide Valid, Pow2, LiveSlots, Grid;
      SubsetOfFullSize(LiveSlots(), Grid(w.NumMaxChunk(), w.NumMaxHandlePerChunk()));
    }

    lemma GridSize()
      requires Valid()
      ensures |Grid(w.NumMaxChunk(), w.NumMaxHandlePerChunk())| == Pow2(w.a)
      ensures LiveSlots() <= Grid(w.NumMaxChunk(), w.NumMaxHandlePerChunk())
    {
      hide Pow2, ChunkOk;
      Pow2Add(w.b, w.a - w.b);
      PerChunkBound(w);
    }

    /** Every slot of the grid is in use exactly when no chain holds a slot. */
    lemma FreeIsInGrid()
      requires Valid()
      ensures LiveSlots() == Grid(w.NumMaxChunk(), w.NumMaxHandlePerChunk())
              <==> forall k :: 0 <= k < |chains| ==> chains[k] == []
    {
      hide Pow2, ChunkOk;
      var (n, m) := (w.NumMaxChunk(), w.NumMaxHandlePerChunk());
      PerChunkBound(w);
      forall k | 0 <= k < |chains|
        ensures chains[k] == [] ==> chunkList[k].Some?
        ensures chains[k] != [] ==> (k, chains[k][0]) in Grid(n, m) - LiveSlots()
      {
        EmptyMeans(chunkList[k], firstFree[k], chains[k], released[k], m, Pow2(w.c));
      }
    }
  }

  lemma EmptyMeans(recs: Option<seq<Record>>, first: nat, chain: seq<nat>, released: seq<nat>, per: nat, counters: nat)
    requires counters > 0 && per > 0 && ChunkOk(recs, first, chain, released, per, counters)
    ensures chain == [] ==> recs.Some?
    ensures chain != [] ==> chain[0] < per
  {
  }

  function BuildHandle(w: Widths, chunk: nat, index: nat, counter: nat): (handle: nat)
    requires w.Ok() && chunk < Pow2(w.b) && index < w.NumMaxHandlePerChunk() && counter < Pow2(w.c)
    ensures handle == w.Pack(index, chunk, counter, 0) != U32MAX
  {
    BuildSteps(w, chunk, index, counter);
    w.SetCounterValue(w.SetIndexValue(w.SetChunkValue(0, chunk), index), counter)
  }

  lemma LowBelow(v: nat, m: nat)
    requires v < m
    ensures Rest(v, m) == v
  {
  }

  lemma ZeroFields(w: Widths)
    requires w.Ok()
    ensures w.Pack(0, 0, 0, 0) == 0
  {
    hide Pow2;
  }

  lemma BuildSteps(w: Widths, chunk: nat, index: nat, counter: nat)
    requires w.Ok() && chunk < Pow2(w.b) && index < w.NumMaxHandlePerChunk() && counter < Pow2(w.c)
    ensures w.SetCounterValue(w.SetIndexValue(w.SetChunkValue(0, chunk), index), counter)
            == w.Pack(index, chunk, counter, 0) < U32MAX
  {
    hide Pow2, Join, Quot, Rest;
    ZeroFields(w);
    Unpack(w, 0, 0, 0, 0);
    LowBelow(chunk, Pow2(w.b));
    Unpack(w, 0, chunk, 0, 0);
    Pow2Mono(w.a - w.b, w.a);
    LowBelow(index, Pow2(w.a));
    Unpack(w, index, chunk, 0, 0);
    LowBelow(counter, Pow2(w.c));
    NeverInvalid(w, index, chunk, counter);
  }

  lemma PerChunkBound(w: Widths)
    requires w.Ok()
    ensures 0 < w.NumMaxHandlePerChunk() <= 32768 && Pow2(w.c) >= 2
  {
    Pow2Mono(w.a - w.b, 15);
    Pow2Mono(1, w.c);
    hide Pow2;
    SmallPowers();
  }

  lemma EmptyChunk(first: nat, chain: seq<nat>, released: seq<nat>, per: nat, counters: nat)
    requires counters > 0 && ChunkOk(None, first, chain, released, per, counters)
    ensures first == 0 && chain == seq(per, i => i)
  {
  }

  lemma FirstMeans(recs: Option<seq<Record>>, first: nat, chain: seq<nat>, released: seq<nat>, per: nat, counters: nat)
    requires counters > 0 && per > 0 && ChunkOk(recs, first, chain, released, per, counters)
    ensures first == END <==> chain == []
    ensures chain != [] ==> first == chain[0]
  {
  }

  lemma CounterMeans(recs: seq<Record>, first: nat, chain: seq<nat>, released: seq<nat>, per: nat, counters: nat)
    requires counters > 0 && ChunkOk(Some(recs), first, chain, released, per, counters)
    ensures |recs| == |released| == per && (chain != [] ==> first == chain[0] < per && first !in chain[1..])
    ensures forall i :: 0 <= i < per ==> recs[i].curCounter == (1 + released[i]) % counters < counters
  {
  }

  /** Two counts show the same counter exactly when they differ by a multiple of the range. */
  lemma CountersAgree(count: nat, now: nat, counters: nat)
    requires count <= now && counters > 0
    ensures (1 + count) % counters == (1 + now) % counters <==> (now - count) % counters == 0
  {
    SameRest(1 + count, 1 + now, counters);
    assert 1 + now - (1 + count) == now - count;
  }

  lemma NextCounter(w: Widths, t: Ticket, now: nat)
    requires w.Ok() && t.chunk < Pow2(w.b) && t.count <= now && (now - t.count) % Pow2(w.c) == 0
    ensures w.CounterValue(w.IncCounterValue(HandleOf(w, t))) == (1 + now + 1) % Pow2(w.c)
  {
    hide Pow2, Join, Quot;
    var m := Pow2(w.c);
    Unpack(w, t.index, t.chunk, (1 + t.count) % m, 0);
    CountersAgree(t.count, now, m);
    Unpack(w, t.index, t.chunk, ((1 + t.count) % m + 1) % m, 0);
    RestPlusOne(1 + now, m);
  }

  /** With one bit of counter: a handle whose slot was given out again and came back twice resolves,
      although nobody has the slot, and releasing it breaks the list. */
  method OldHandleReleased() returns (l: HandleList)
    ensures !l.Valid()
  {
    hide Pow2, ListOk, ChunkOk, HandleList.Live;
    OneBit();
    l := new HandleList(Widths(1, 1, 1));
    FirstSlotFree(l);
    var ok, first, t := l.Reserve();
    assert ok && t.chunk == 0 && l.Since(t) == 0;
    var _ := l.Release(first, t);
    assert l.Valid() && l.chains[0][0] == t.index && l.Since(t) == 1;
    var ok', second, t' := l.Reserve();
    assert ok' && t'.chunk == t.chunk && t'.index == t.index && l.Since(t') == 0 && t'.count == t.count + 1;
    var _ := l.Release(second, t');
    assert l.Valid() && l.Issued(t) && l.Since(t) == 2 && !l.Live(t.chunk, t.index);
    var _ := l.Release(first, t);
  }

  lemma OneBit()
    ensures Widths(1, 1, 1).Ok() && Pow2(1) == 2
  {
  }

  lemma FirstSlotFree(l: HandleList)
    requires l.Valid() && l.w == Widths(1, 1, 1) && forall c, i :: !l.Live(c, i)
    ensures |l.chains| == 2 && l.chains[0] != []
  {
    assert !l.Live(0, 0);
  }
}
