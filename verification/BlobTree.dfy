/** The description a data blob definition carries: a forest of named elements, each with
    the absolute offset it starts at inside the described blob, and what an access path
    means on it. */
module BlobTree {
  import opened Arith
  import opened Options
  import opened Bytes

  /** `name` is empty for an element declared without one. */
  datatype Elem =
    | Simple(name: seq<byte>, off: nat, user: nat, fmt: byte, size: nat)
    | Struct(name: seq<byte>, off: nat, user: nat, kids: seq<Elem>)
    | Array(name: seq<byte>, off: nat, user: nat, dims: seq<nat>, kids: seq<Elem>)

  /** One dotted component of a path: a name and the indices between square brackets. */
  datatype Piece = Piece(name: seq<byte>, idx: seq<nat>)

  // ---------------------------------------------------------------- layout

  function Prod(dims: seq<nat>): nat {
    if dims == [] then 1 else dims[0] * Prod(dims[1..])
  }

  /** First byte after the element in the blob. */
  function End(e: Elem): int
    decreases e, 1
  {
    match e
    case Simple(_, off, _, _, size) => off + size
    case Struct(_, off, _, kids) => EndOf(kids, off)
    case Array(_, off, _, dims, kids) => off + (EndOf(kids, off) - off) * Prod(dims)
  }

  function EndOf(kids: seq<Elem>, start: int): int
    decreases kids, 0
  {
    if kids == [] then start else End(kids[|kids| - 1])
  }

  /** Distance between two consecutive items of an array. */
  function Stride(e: Elem): int
    requires e.Array?
  {
    EndOf(e.kids, e.off) - e.off
  }

  /** The `size` field recorded for an element. */
  function SizeOf(e: Elem): int {
    End(e) - e.off
  }

  ghost predicate Laid(e: Elem)
    decreases e, 1
  {
    match e
    case Simple(_, _, _, _, _) => true
    case Struct(_, off, _, kids) => LaidAll(kids, off)
    case Array(_, off, _, dims, kids) =>
      && LaidAll(kids, off)
      && 1 <= |dims| <= 3
      && (forall k :: 0 <= k < |dims| ==> 1 <= dims[k])
  }

  /** Siblings come in order of offset and do not overlap. */
  ghost predicate LaidAll(kids: seq<Elem>, start: int)
    decreases kids, 0
  {
    kids == [] ||
    var n := |kids| - 1;
    LaidAll(kids[..n], start) && Laid(kids[n]) && EndOf(kids[..n], start) <= kids[n].off
  }

  lemma {:induction false} ProdPositive(dims: seq<nat>)
    requires forall k :: 0 <= k < |dims| ==> 1 <= dims[k]
    ensures 1 <= Prod(dims)
  {
    if dims != [] {
      ProdPositive(dims[1..]);
      MulMono(1, dims[0], 1, Prod(dims[1..]));
    }
  }

  lemma {:induction false} EndGrows(e: Elem)
    requires Laid(e)
    ensures e.off <= End(e)
    ensures e.Array? ==> 0 <= Stride(e) && e.off + Stride(e) <= End(e)
    decreases e, 1
  {
    match e
    case Simple(_, _, _, _, _) =>
    case Struct(_, off, _, kids) => EndOfGrows(kids, off);
    case Array(_, off, _, dims, kids) =>
      EndOfGrows(kids, off);
      ProdPositive(dims);
      MulMono(Stride(e), Stride(e), 1, Prod(dims));
  }

  lemma {:induction false} EndOfGrows(kids: seq<Elem>, start: int)
    requires LaidAll(kids, start)
    ensures start <= EndOf(kids, start)
    ensures forall i :: 0 <= i < |kids| ==> Laid(kids[i])
    ensures forall i :: 0 <= i < |kids| ==> start <= kids[i].off && End(kids[i]) <= EndOf(kids, start)
    ensures forall i, j :: 0 <= i < j < |kids| ==> End(kids[i]) <= kids[j].off
    decreases kids, 0
  {
    if kids != [] {
      var n := |kids| - 1;
      EndOfGrows(kids[..n], start);
      EndGrows(kids[n]);
      forall i | 0 <= i < n
        ensures Laid(kids[i]) && start <= kids[i].off && End(kids[i]) <= kids[n].off
      {
        assert kids[i] == kids[..n][i];
      }
      forall i, j | 0 <= i < j < |kids|
        ensures End(kids[i]) <= kids[j].off
      {
        if j < n {
          assert kids[i] == kids[..n][i] && kids[j] == kids[..n][j];
        }
      }
    }
  }

  // ---------------------------------------------------------------- lookup

  /** Position of the first sibling called `name`. */
  function FindName(sibs: seq<Elem>, name: seq<byte>): (r: Option<nat>)
    ensures r.Some? ==> r.value < |sibs| && sibs[r.value].name == name
    ensures r.Some? ==> forall i :: 0 <= i < r.value ==> sibs[i].name != name
    ensures r.None? ==> forall i :: 0 <= i < |sibs| ==> sibs[i].name != name
  {
    if sibs == [] then None
    else if sibs[0].name == name then Some(0)
    else
      match FindName(sibs[1..], name)
      case None => None
      case Some(i) => Some(i + 1)
  }

  /** Index arithmetic of the reader: every index but the last is multiplied by the size of
      the dimension after it. */
  function Flat(idx: seq<nat>, dims: seq<nat>): nat
    requires |idx| == |dims| && idx != []
  {
    if |idx| == 1 then idx[0] else idx[0] * dims[1] + Flat(idx[1..], dims[1..])
  }

  /** One, two and three dimensions. The first index of three is multiplied by the second dimension only. */
  lemma FlatIs(i: nat, j: nat, k: nat, l: nat, m: nat, n: nat)
    ensures Flat([i], [l]) == i && Flat([i, j], [l, m]) == i * m + j
    ensures Flat([i, j, k], [l, m, n]) == i * m + j * n + k
  {
    assert [i, j][1..] == [j] && [l, m][1..] == [m];
    assert [i, j, k][1..] == [j, k] && [l, m, n][1..] == [m, n];
    assert [j, k][1..] == [k] && [m, n][1..] == [n];
    assert Flat([j], [m]) == j && Flat([k], [n]) == k && Flat([j, k], [m, n]) == j * n + k;
    assert Flat([i, j], [l, m]) == i * m + Flat([j], [m]);
    assert Flat([i, j, k], [l, m, n]) == i * m + Flat([j, k], [m, n]);
  }

  predicate InRange(idx: seq<nat>, dims: seq<nat>) {
    |idx| == |dims| && forall k :: 0 <= k < |idx| ==> idx[k] < dims[k]
  }

  /** Offset added by the indices of a piece, or None when the element refuses them. */
  function IndexOffset(e: Elem, idx: seq<nat>): Option<nat> {
    if idx == [] then Some(0)
    else if !e.Array? || |e.dims| != |idx| || !InRange(idx, e.dims) then None
    else Some((Flat(idx, e.dims) % 65536) * (Stride(e) % 256))
  }

  /** What the reader answers for any path, valid or not. A component after a simple element
      is looked up among that element and its later siblings. */
  function Lookup(sibs: seq<Elem>, path: seq<Piece>, acc: nat): Option<nat>
    decreases |path|
  {
    if path == [] || path[0].name == [] || (exists k :: 0 <= k < |path[0].idx| && path[0].idx[k] >= 65535)
    then None
    else
      match FindName(sibs, path[0].name)
      case None => None
      case Some(i) =>
        match IndexOffset(sibs[i], path[0].idx)
        case None => None
        case Some(o) =>
          var acc' := (acc + o) % 65536;
          if |path| == 1 then Some((sibs[i].off + acc') % 65536)
          else if sibs[i].Simple? then Lookup(sibs[i..], path[1..], acc')
          else Lookup(sibs[i].kids, path[1..], acc')
  }

  // ---------------------------------------------------------------- what a path should mean

  /** The path names an element of the forest, with one in-range index per array dimension
      it goes through. */
  ghost predicate Addresses(sibs: seq<Elem>, path: seq<Piece>)
    decreases |path|
  {
    && path != []
    && path[0].name != []
    && FindName(sibs, path[0].name).Some?
    && var e := sibs[FindName(sibs, path[0].name).value];
       && (if e.Array? then InRange(path[0].idx, e.dims) && path[0].idx != [] else path[0].idx == [])
       && (|path| == 1 || (!e.Simple? && Addresses(e.kids, path[1..])))
  }

  /** The element a path names. */
  ghost function Target(sibs: seq<Elem>, path: seq<Piece>): Elem
    requires Addresses(sibs, path)
    decreases |path|
  {
    var e := sibs[FindName(sibs, path[0].name).value];
    if |path| == 1 then e else Target(e.kids, path[1..])
  }

  /** Bytes covered: the whole element, or a single item of an array. */
  ghost function Extent(sibs: seq<Elem>, path: seq<Piece>): int
    requires Addresses(sibs, path)
  {
    var e := Target(sibs, path);
    if e.Array? then Stride(e) else SizeOf(e)
  }

  /** First byte, in exact arithmetic. */
  ghost function Pos(sibs: seq<Elem>, path: seq<Piece>): int
    requires Addresses(sibs, path)
    decreases |path|
  {
    var e := sibs[FindName(sibs, path[0].name).value];
    (if e.Array? then Flat(path[0].idx, e.dims) * Stride(e) else 0)
    + (if |path| == 1 then e.off else Pos(e.kids, path[1..]))
  }

  // ---------------------------------------------------------------- index arithmetic

  /** The dimensions on which the index arithmetic never maps two index lists to one slot. */
  predicate GoodDims(dims: seq<nat>) {
    |dims| <= 2 || (|dims| == 3 && (dims[0] == 1 || dims[2] == 1))
  }

  lemma {:induction false} FlatForms(idx: seq<nat>, dims: seq<nat>)
    requires |idx| == |dims| && 1 <= |dims| <= 3
    ensures |dims| == 1 ==> Flat(idx, dims) == idx[0] && Prod(dims) == dims[0]
    ensures |dims| == 2 ==> Flat(idx, dims) == idx[0] * dims[1] + idx[1] && Prod(dims) == dims[0] * dims[1]
    ensures |dims| == 3 ==> Flat(idx, dims) == idx[0] * dims[1] + (idx[1] * dims[2] + idx[2])
                            && Prod(dims) == dims[0] * (dims[1] * dims[2])
  {
    if |dims| == 1 {
      assert Prod(dims[1..]) == 1;
    } else {
      FlatForms(idx[1..], dims[1..]);
    }
  }

  lemma {:induction false} RowBound(i: nat, n: nat, w: nat, j: nat)
    requires i < n && j < w
    ensures i * w + j < n * w
  {
    MulMono(i + 1, n, w, w);
    assert (i + 1) * w == i * w + w;
  }

  lemma {:induction false} RowBelow(i: nat, j: nat, i': nat, w: nat)
    requires j < w
    ensures i < i' ==> i * w + j < i' * w
  {
    if i < i' {
      MulMono(i + 1, i', w, w);
      assert (i + 1) * w == i * w + w;
    }
  }

  lemma {:induction false} RowUnique(i: nat, j: nat, i': nat, j': nat, w: nat)
    requires j < w && j' < w && i * w + j == i' * w + j'
    ensures i == i' && j == j'
  {
    RowBelow(i, j, i', w);
    RowBelow(i', j', i, w);
  }

  /** Even where two index lists collide, the slot stays inside the array. */
  lemma {:induction false} FlatBound(idx: seq<nat>, dims: seq<nat>)
    requires 1 <= |dims| <= 3 && InRange(idx, dims)
    ensures Flat(idx, dims) < Prod(dims)
  {
    FlatForms(idx, dims);
    if |dims| == 2 {
      RowBound(idx[0], dims[0], dims[1], idx[1]);
    } else if |dims| == 3 {
      CubeBound(idx[0], idx[1], idx[2], dims[0], dims[1], dims[2]);
    }
  }

  lemma {:induction false} CubeBound(i: nat, j: nat, k: nat, a: nat, b: nat, c: nat)
    requires i < a && j < b && k < c
    ensures i * b + (j * c + k) < a * (b * c)
  {
    RowBound(j, b, c, k);
    MulMono(b, b, 1, c);
    MulMono(i, a - 1, b, b * c);
    assert a * (b * c) == (a - 1) * (b * c) + b * c;
  }

  lemma {:induction false} FlatInjective(idx: seq<nat>, idx': seq<nat>, dims: seq<nat>)
    requires 1 <= |dims| && GoodDims(dims) && InRange(idx, dims) && InRange(idx', dims)
    requires Flat(idx, dims) == Flat(idx', dims)
    ensures idx == idx'
  {
    FlatForms(idx, dims);
    FlatForms(idx', dims);
    if |dims| == 2 {
      RowUnique(idx[0], idx[1], idx'[0], idx'[1], dims[1]);
    } else if |dims| == 3 {
      if dims[0] == 1 {
        RowUnique(idx[1], idx[2], idx'[1], idx'[2], dims[2]);
      } else {
        RowUnique(idx[0], idx[1], idx'[0], idx'[1], dims[1]);
      }
    }
  }

  /** Outside `GoodDims` two different index lists share a slot. */
  lemma {:induction false} FlatCollides(dims: seq<nat>) returns (idx: seq<nat>, idx': seq<nat>)
    requires |dims| == 3 && !GoodDims(dims) && forall k :: 0 <= k < 3 ==> 1 <= dims[k]
    ensures InRange(idx, dims) && InRange(idx', dims) && idx != idx'
    ensures Flat(idx, dims) == Flat(idx', dims)
  {
    var b, c := dims[1], dims[2];
    idx, idx' := [1, 0, 0], [0, b / c, b % c];
    assert b / c < b by {
      if b <= b / c { MulMono(b, b / c, 2, c); }
    }
    FlatForms(idx, dims);
    FlatForms(idx', dims);
    assert b / c * c + b % c == b;
  }

  /** Three-dimensional indexing is one-to-one exactly on the dimensions `GoodDims` accepts. */
  lemma {:induction false} IndexingIsOneToOne(dims: seq<nat>)
    requires 1 <= |dims| <= 3 && forall k :: 0 <= k < |dims| ==> 1 <= dims[k]
    ensures GoodDims(dims) <==>
            forall idx, idx' | InRange(idx, dims) && InRange(idx', dims) ::
              Flat(idx, dims) == Flat(idx', dims) ==> idx == idx'
  {
    if GoodDims(dims) {
      forall idx, idx' | InRange(idx, dims) && InRange(idx', dims) && Flat(idx, dims) == Flat(idx', dims)
        ensures idx == idx'
      {
        FlatInjective(idx, idx', dims);
      }
    } else {
      var idx, idx' := FlatCollides(dims);
    }
  }

  // ---------------------------------------------------------------- the layout theorem

  /** Some simple element inside occupies at least one byte. */
  ghost predicate HasBytes(e: Elem) {
    match e
    case Simple(_, _, _, _, size) => size > 0
    case Struct(_, _, _, kids) => exists k :: 0 <= k < |kids| && HasBytes(kids[k])
    case Array(_, _, _, _, kids) => exists k :: 0 <= k < |kids| && HasBytes(kids[k])
  }

  /** Every array that holds at least one byte has good dimensions. */
  ghost predicate SoundArrays(e: Elem) {
    match e
    case Simple(_, _, _, _, _) => true
    case Struct(_, _, _, kids) => forall k :: 0 <= k < |kids| ==> SoundArrays(kids[k])
    case Array(_, _, _, dims, kids) =>
      && (HasBytes(e) ==> GoodDims(dims))
      && forall k :: 0 <= k < |kids| ==> SoundArrays(kids[k])
  }

  ghost predicate Apart(a: int, sa: int, b: int, sb: int) {
    a + sa <= b || b + sb <= a
  }

  /** A path never leaves the range of the forest it starts from. */
  lemma {:induction false} PathInside(sibs: seq<Elem>, path: seq<Piece>, start: int)
    requires LaidAll(sibs, start) && Addresses(sibs, path)
    ensures 0 <= Extent(sibs, path) && PathInSlot(sibs, path)
    ensures start <= Pos(sibs, path) && Pos(sibs, path) + Extent(sibs, path) <= EndOf(sibs, start)
    decreases |path|
  {
    var e := Head(sibs, path);
    EndOfGrows(sibs, start);
    EndGrows(e);
    if |path| > 1 {
      PathInside(e.kids, path[1..], e.off);
      assert e.off <= Pos(e.kids, path[1..]);
      assert Pos(e.kids, path[1..]) + Extent(sibs, path) <= EndOf(e.kids, e.off);
    }
    if e.Array? {
      ArraySlot(e, path[0].idx);
    }
  }

  lemma {:induction false} ArraySlot(e: Elem, idx: seq<nat>)
    requires e.Array? && Laid(e) && InRange(idx, e.dims)
    ensures 0 <= Flat(idx, e.dims) * Stride(e)
    ensures e.off + Flat(idx, e.dims) * Stride(e) + Stride(e) <= End(e)
  {
    EndGrows(e);
    FlatBound(idx, e.dims);
    SlotBound(Flat(idx, e.dims), Prod(e.dims), Stride(e));
  }

  lemma {:induction false} SlotBound(f: nat, n: nat, w: int)
    requires f < n && 0 <= w
    ensures 0 <= f * w && f * w + w <= n * w
  {
    MulMono(f + 1, n, w, w);
    assert (f + 1) * w == f * w + w;
  }

  /** The sibling the first component of the path selects. */
  ghost function Head(sibs: seq<Elem>, path: seq<Piece>): Elem
    requires Addresses(sibs, path)
  {
    sibs[FindName(sibs, path[0].name).value]
  }

  /** The path stays in the item of the head element that its first indices select. */
  ghost predicate PathInSlot(sibs: seq<Elem>, path: seq<Piece>)
    requires Addresses(sibs, path)
  {
    var e := Head(sibs, path);
    var (a, b) := (Pos(sibs, path), Pos(sibs, path) + Extent(sibs, path));
    && e.off <= a && b <= End(e)
    && (e.Array? ==> var slot := e.off + Flat(path[0].idx, e.dims) * Stride(e);
                     slot <= a && b <= slot + Stride(e))
  }

  lemma {:induction false} TargetHasBytes(sibs: seq<Elem>, path: seq<Piece>)
    requires Addresses(sibs, path) && HasBytes(Target(sibs, path))
    ensures HasBytes(Head(sibs, path))
    decreases |path|
  {
    if |path| > 1 {
      TargetHasBytes(Head(sibs, path).kids, path[1..]);
    }
  }

  /** Two paths, neither of which extends the other, cover disjoint bytes. */
  lemma {:induction false} PathsApart(sibs: seq<Elem>, p: seq<Piece>, q: seq<Piece>, start: int)
    requires LaidAll(sibs, start) && Addresses(sibs, p) && Addresses(sibs, q)
    requires forall k :: 0 <= k < |sibs| ==> SoundArrays(sibs[k])
    requires !(p <= q) && !(q <= p)
    requires HasBytes(Target(sibs, p)) && HasBytes(Target(sibs, q))
    ensures Apart(Pos(sibs, p), Extent(sibs, p), Pos(sibs, q), Extent(sibs, q))
    decreases |p|
  {
    PathInside(sibs, p, start);
    PathInside(sibs, q, start);
    var e := Head(sibs, p);
    EndOfGrows(sibs, start);
    if FindName(sibs, p[0].name).value != FindName(sibs, q[0].name).value {
      // different siblings
    } else if p[0].idx != q[0].idx {
      TargetHasBytes(sibs, p);
      SlotsApart(e, p[0].idx, q[0].idx);
    } else {
      assert p[0] == q[0] && p == [p[0]] + p[1..] && q == [q[0]] + q[1..];
      PathsApart(e.kids, p[1..], q[1..], e.off);
    }
  }

  lemma {:induction false} SlotsApart(e: Elem, idx: seq<nat>, idx': seq<nat>)
    requires e.Array? && Laid(e) && GoodDims(e.dims)
    requires InRange(idx, e.dims) && InRange(idx', e.dims) && idx != idx'
    ensures Apart(Flat(idx, e.dims) * Stride(e), Stride(e), Flat(idx', e.dims) * Stride(e), Stride(e))
  {
    EndGrows(e);
    var (f, g) := (Flat(idx, e.dims), Flat(idx', e.dims));
    if f == g {
      FlatInjective(idx, idx', e.dims);
    } else if f < g {
      SlotBound(f, g, Stride(e));
    } else {
      SlotBound(g, f, Stride(e));
    }
  }

  // ---------------------------------------------------------------- leaves

  /** An array whose items are one nameless simple value. */
  predicate IsSimpleArray(e: Elem) {
    e.Array? && |e.kids| == 1 && e.kids[0].Simple? && e.kids[0].name == []
  }

  /** Sibling names are distinct; only the item of a simple array goes without one. */
  ghost predicate Named(e: Elem)
    decreases e, 1
  {
    e.Simple? || IsSimpleArray(e) || NamedAll(e.kids)
  }

  ghost predicate NamedAll(kids: seq<Elem>)
    decreases kids, 0
  {
    && (forall i :: 0 <= i < |kids| ==> kids[i].name != [] && Named(kids[i]))
    && (forall i, j :: 0 <= i < j < |kids| ==> kids[i].name != kids[j].name)
  }

  /** A path down to a simple value, or to one item of a simple array. */
  ghost predicate Leaf(sibs: seq<Elem>, path: seq<Piece>) {
    Addresses(sibs, path) && (Target(sibs, path).Simple? || IsSimpleArray(Target(sibs, path)))
  }

  ghost predicate LeafWithBytes(sibs: seq<Elem>, path: seq<Piece>) {
    Leaf(sibs, path) && HasBytes(Target(sibs, path))
  }

  /** Indices of the first item of an array; none for anything else. */
  function FirstItem(e: Elem): seq<nat> {
    if e.Array? then seq(|e.dims|, _ => 0) else []
  }

  /** Putting one more component in front of a path. */
  lemma {:induction false} Descend(sibs: seq<Elem>, k: nat, idx: seq<nat>, rest: seq<Piece>)
    requires k < |sibs| && NamedAll(sibs) && !sibs[k].Simple? && Addresses(sibs[k].kids, rest)
    requires if sibs[k].Array? then idx != [] && InRange(idx, sibs[k].dims) else idx == []
    ensures var p := [Piece(sibs[k].name, idx)] + rest;
            && Addresses(sibs, p) && Head(sibs, p) == sibs[k]
            && Target(sibs, p) == Target(sibs[k].kids, rest)
  {
    var p := [Piece(sibs[k].name, idx)] + rest;
    assert p[1..] == rest;
    assert FindName(sibs, sibs[k].name) == Some(k);
  }

  lemma {:induction false} Stop(sibs: seq<Elem>, k: nat, idx: seq<nat>)
    requires k < |sibs| && NamedAll(sibs)
    requires if sibs[k].Array? then idx != [] && InRange(idx, sibs[k].dims) else idx == []
    ensures var p := [Piece(sibs[k].name, idx)];
            Addresses(sibs, p) && Head(sibs, p) == sibs[k] && Target(sibs, p) == sibs[k]
  {
    assert FindName(sibs, sibs[k].name) == Some(k);
  }

  /** Whatever holds a byte holds a leaf with a byte, under any choice of its own indices. */
  lemma {:induction false} FindLeaf(sibs: seq<Elem>, k: nat, idx: seq<nat>) returns (rest: seq<Piece>)
    requires k < |sibs| && NamedAll(sibs) && Laid(sibs[k]) && HasBytes(sibs[k])
    requires if sibs[k].Array? then idx != [] && InRange(idx, sibs[k].dims) else idx == []
    ensures LeafWithBytes(sibs, [Piece(sibs[k].name, idx)] + rest)
    ensures rest == [] || (!sibs[k].Simple? && Addresses(sibs[k].kids, rest))
    ensures rest == [] ==> sibs[k].Simple? || IsSimpleArray(sibs[k])
    decreases sibs[k]
  {
    var e := sibs[k];
    if e.Simple? || IsSimpleArray(e) {
      rest := [];
      Stop(sibs, k, idx);
      assert [Piece(e.name, idx)] + [] == [Piece(e.name, idx)];
    } else {
      EndOfGrows(e.kids, e.off);
      var j :| 0 <= j < |e.kids| && HasBytes(e.kids[j]);
      rest := FindLeaf(e.kids, j, FirstItem(e.kids[j]));
      rest := [Piece(e.kids[j].name, FirstItem(e.kids[j]))] + rest;
      Descend(sibs, k, idx, rest);
    }
  }

  /** Two items of one array at one address, and a leaf below them. */
  lemma {:induction false} CollidingItems(sibs: seq<Elem>, k: nat) returns (p: seq<Piece>, q: seq<Piece>)
    requires k < |sibs| && NamedAll(sibs) && Laid(sibs[k]) && sibs[k].Array?
    requires HasBytes(sibs[k]) && !GoodDims(sibs[k].dims)
    ensures LeafWithBytes(sibs, p) && LeafWithBytes(sibs, q) && p != q
    ensures Pos(sibs, p) == Pos(sibs, q)
  {
    var e := sibs[k];
    var idx, idx' := FlatCollides(e.dims);
    var rest := FindLeaf(sibs, k, idx);
    p, q := [Piece(e.name, idx)] + rest, [Piece(e.name, idx')] + rest;
    assert p[0] != q[0] && p[1..] == rest && q[1..] == rest;
    if rest == [] {
      Stop(sibs, k, idx');
      assert q == [Piece(e.name, idx')] && p == [Piece(e.name, idx)];
      Stop(sibs, k, idx);
    } else {
      Descend(sibs, k, idx, rest);
      Descend(sibs, k, idx', rest);
    }
  }

  /** An array of bad dimensions that holds a byte gives two leaves at one address. */
  lemma {:induction false} CollidingLeaves(sibs: seq<Elem>, k: nat) returns (p: seq<Piece>, q: seq<Piece>)
    requires k < |sibs| && NamedAll(sibs) && Laid(sibs[k]) && !SoundArrays(sibs[k])
    ensures LeafWithBytes(sibs, p) && LeafWithBytes(sibs, q) && p != q
    ensures Pos(sibs, p) == Pos(sibs, q)
    decreases sibs[k]
  {
    var e := sibs[k];
    EndOfGrows(e.kids, e.off);
    if e.Array? && HasBytes(e) && !GoodDims(e.dims) {
      p, q := CollidingItems(sibs, k);
    } else {
      var j :| 0 <= j < |e.kids| && !SoundArrays(e.kids[j]);
      var p', q' := CollidingLeaves(e.kids, j);
      p, q := [Piece(e.name, FirstItem(e))] + p', [Piece(e.name, FirstItem(e))] + q';
      assert p[1..] == p' && q[1..] == q';
      Descend(sibs, k, FirstItem(e), p');
      Descend(sibs, k, FirstItem(e), q');
    }
  }

  /** No leaf lies below another one. */
  lemma {:induction false} LeafNotAbove(sibs: seq<Elem>, p: seq<Piece>, q: seq<Piece>)
    requires Leaf(sibs, p) && Addresses(sibs, q) && p <= q
    ensures p == q
    decreases |p|
  {
    if |p| == 1 {
      assert p[0] == q[0];
    } else {
      assert p[0] == q[0] && p[1..] <= q[1..];
      LeafNotAbove(Head(sibs, p).kids, p[1..], q[1..]);
      assert p == [p[0]] + p[1..] && q == [q[0]] + q[1..];
    }
  }

  lemma {:induction false} LeafExtent(sibs: seq<Elem>, p: seq<Piece>, start: int)
    requires LaidAll(sibs, start) && LeafWithBytes(sibs, p)
    ensures 0 < Extent(sibs, p)
    decreases |p|
  {
    var e := Head(sibs, p);
    EndOfGrows(sibs, start);
    if |p| > 1 {
      LeafExtent(e.kids, p[1..], e.off);
    } else if e.Array? {
      EndOfGrows(e.kids, e.off);
      assert HasBytes(e.kids[0]);
    } else {
      assert SizeOf(e) == e.size;
    }
  }

  ghost predicate LeavesApart(sibs: seq<Elem>) {
    forall p, q | LeafWithBytes(sibs, p) && LeafWithBytes(sibs, q) && p != q ::
      Apart(Pos(sibs, p), Extent(sibs, p), Pos(sibs, q), Extent(sibs, q))
  }

  /** Distinct leaves never share a byte, exactly when every array holding a byte has one or
      two dimensions, or three of which the first or the last is 1. */
  lemma {:induction false} LayoutTheorem(roots: seq<Elem>)
    requires LaidAll(roots, 0) && NamedAll(roots)
    ensures LeavesApart(roots) <==> forall k :: 0 <= k < |roots| ==> SoundArrays(roots[k])
    ensures forall p | LeafWithBytes(roots, p) ::
              0 <= Pos(roots, p) && Pos(roots, p) + Extent(roots, p) <= EndOf(roots, 0)
  {
    forall p | LeafWithBytes(roots, p)
      ensures 0 <= Pos(roots, p) && Pos(roots, p) + Extent(roots, p) <= EndOf(roots, 0)
    {
      PathInside(roots, p, 0);
    }
    if forall k :: 0 <= k < |roots| ==> SoundArrays(roots[k]) {
      forall p, q | LeafWithBytes(roots, p) && LeafWithBytes(roots, q) && p != q
        ensures Apart(Pos(roots, p), Extent(roots, p), Pos(roots, q), Extent(roots, q))
      {
        if p <= q { LeafNotAbove(roots, p, q); }
        if q <= p { LeafNotAbove(roots, q, p); }
        PathsApart(roots, p, q, 0);
      }
    } else {
      var k :| 0 <= k < |roots| && !SoundArrays(roots[k]);
      EndOfGrows(roots, 0);
      var p, q := CollidingLeaves(roots, k);
      LeafExtent(roots, p, 0);
      LeafExtent(roots, q, 0);
    }
  }

  // ---------------------------------------------------------------- sixteen-bit arithmetic

  /** What the wire format has room for. */
  ghost predicate Fits(e: Elem)
    decreases e, 1
  {
    match e
    case Simple(_, _, _, _, _) => true
    case Struct(_, _, _, kids) => FitsAll(kids)
    case Array(_, _, _, dims, kids) =>
      Stride(e) <= 255 && (forall k :: 0 <= k < |dims| ==> dims[k] <= 65535) && FitsAll(kids)
  }

  ghost predicate FitsAll(kids: seq<Elem>)
    decreases kids, 0
  {
    forall i :: 0 <= i < |kids| ==> Fits(kids[i])
  }

  lemma {:induction false} NoWrap(f: nat, w: nat)
    requires w <= 255 && f * w <= 65535
    ensures (f % 65536) * (w % 256) == f * w
  {
    if w > 0 {
      MulMono(f, f, 1, w);
    }
  }

  /** Bytes the indices of the first component skip. */
  ghost function Skipped(sibs: seq<Elem>, path: seq<Piece>): int
    requires Addresses(sibs, path)
  {
    var e := Head(sibs, path);
    if e.Array? then Flat(path[0].idx, e.dims) * Stride(e) else 0
  }

  lemma {:induction false} HeadExact(sibs: seq<Elem>, path: seq<Piece>, start: nat)
    requires LaidAll(sibs, start) && FitsAll(sibs) && Addresses(sibs, path)
    requires Pos(sibs, path) <= 65535
    ensures 0 <= Skipped(sibs, path) <= Pos(sibs, path)
    ensures IndexOffset(Head(sibs, path), path[0].idx) == Some(Skipped(sibs, path))
    ensures forall k :: 0 <= k < |path[0].idx| ==> path[0].idx[k] < 65535
  {
    var e := Head(sibs, path);
    EndOfGrows(sibs, start);
    if e.Array? {
      PathInside(sibs, path, start);
      ArraySlot(e, path[0].idx);
      EndGrows(e);
      NoWrap(Flat(path[0].idx, e.dims), Stride(e));
    } else {
      PathInside(sibs, path, start);
    }
  }

  /** On a path that names an element, the reader's truncated arithmetic is exact. */
  lemma {:induction false} LookupExact(sibs: seq<Elem>, path: seq<Piece>, start: nat, acc: nat)
    requires LaidAll(sibs, start) && FitsAll(sibs) && Addresses(sibs, path)
    requires acc + Pos(sibs, path) <= 65535
    ensures Lookup(sibs, path, acc) == Some(acc + Pos(sibs, path))
    decreases |path|
  {
    hide LaidAll, FitsAll, Lookup, Pos, Addresses, IndexOffset, EndOf, Head, Skipped;
    HeadExact(sibs, path, start);
    LookupUnfolds(sibs, path, acc, Skipped(sibs, path));
    if |path| > 1 {
      KidsLaid(sibs, path, start);
      var e := Head(sibs, path);
      LookupExact(e.kids, path[1..], e.off, acc + Skipped(sibs, path));
    }
  }

  lemma LookupUnfolds(sibs: seq<Elem>, path: seq<Piece>, acc: nat, o: nat)
    requires Addresses(sibs, path) && IndexOffset(Head(sibs, path), path[0].idx) == Some(o) && o == Skipped(sibs, path)
    requires acc + Pos(sibs, path) <= 65535 && o <= Pos(sibs, path)
    requires forall k :: 0 <= k < |path[0].idx| ==> path[0].idx[k] < 65535
    ensures |path| >= 1
    ensures |path| == 1 ==> Lookup(sibs, path, acc) == Some(acc + Pos(sibs, path))
    ensures |path| > 1 ==>
              !Head(sibs, path).Simple? && Addresses(Head(sibs, path).kids, path[1..])
              && Lookup(sibs, path, acc) == Lookup(Head(sibs, path).kids, path[1..], acc + o)
              && Pos(sibs, path) == o + Pos(Head(sibs, path).kids, path[1..])
  {
    assert (acc + o) % 65536 == acc + o;
  }

  lemma KidsLaid(sibs: seq<Elem>, path: seq<Piece>, start: nat)
    requires LaidAll(sibs, start) && FitsAll(sibs) && Addresses(sibs, path) && |path| > 1
    ensures var e := Head(sibs, path); 0 <= e.off && !e.Simple? && LaidAll(e.kids, e.off) && FitsAll(e.kids)
  {
    EndOfGrows(sibs, start);
  }
}
