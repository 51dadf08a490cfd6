/** DefBuilder: the calls that describe a blob append records to a byte buffer and patch them
    when a composite is closed. At every moment the buffer, the stack and the running size are
    those of the description made so far. */
module BlobBuilder {
  import opened Arith
  import opened Bytes
  import opened BlobTree
  import opened BlobWire
  import DataFormat

  /** A description under construction: completed roots, then the composites still open, each
      with the members it has so far. */
  datatype Ctx = Root(roots: seq<Elem>) | In(parent: Ctx, e: Elem)

  function Members(c: Ctx): seq<Elem> {
    match c
    case Root(roots) => roots
    case In(_, e) => if e.Simple? then [] else e.kids
  }

  function Start(c: Ctx): nat {
    if c.Root? then 0 else c.e.off
  }

  /** Blob bytes described so far. */
  function Cursor(c: Ctx): int {
    EndOf(Members(c), Start(c))
  }

  function Add(c: Ctx, k: Elem): Ctx
    requires c.In? ==> !c.e.Simple?
  {
    match c
    case Root(roots) => Root(roots + [k])
    case In(p, e) => In(p, e.(kids := e.kids + [k]))
  }

  function OpenData(e: Elem, pos: nat): (s: seq<byte>)
    requires !e.Simple?
    ensures |s| == DataLen(e)
  {
    CompositeData(e, pos + RecLen(e), 0, 0, 0)
  }

  /** Record of a composite whose end is not known yet. */
  function OpenRec(e: Elem, pos: nat): (s: seq<byte>)
    requires !e.Simple?
    ensures |s| == RecLen(e)
  {
    Rec(Kind(e), e.name, 0xFFFF, e.off, 0, e.user, OpenData(e, pos))
  }

  ghost predicate Open(c: Ctx) {
    c.In? ==> !c.e.Simple? && Open(c.parent)
  }

  function Built(c: Ctx): seq<byte>
    requires Open(c)
  {
    match c
    case Root(roots) => MAGIC + U16(0) + U16(0) + EncAll(roots, 8)
    case In(p, e) =>
      var pos := |Built(p)|;
      Built(p) + OpenRec(e, pos) + EncAll(e.kids, pos + RecLen(e))
  }

  function Slots(c: Ctx): seq<nat>
    requires Open(c)
  {
    match c
    case Root(_) => []
    case In(p, e) => Slots(p) + [|Built(p)|, e.off]
  }

  /** What the accepted calls made so far guarantee. */
  ghost predicate Sound(c: Ctx)
    ensures Sound(c) ==> Open(c)
  {
    && Open(c) && LaidAll(Members(c), Start(c)) && WireAll(Members(c))
    && (c.In? ==> Sound(c.parent) && Cursor(c.parent) <= c.e.off && Declared(c.e))
  }

  ghost predicate Declared(e: Elem) {
    && |e.name| <= 243 && e.user < 0x1_0000_0000
    && (e.Array? ==> 1 <= |e.dims| <= 3 && forall k :: 0 <= k < |e.dims| ==> 1 <= e.dims[k] <= 65535)
  }

  lemma BuiltAligned(c: Ctx)
    requires Open(c)
    ensures |Built(c)| % 8 == 0 && 8 <= |Built(c)|
  {
    hide EncAll, OpenRec, U16, RecLen, LenAll;
    LenAllAligned(Members(c));
    if c.In? {
      BuiltAligned(c.parent);
      AddAligned(|Built(c.parent)|, RecLen(c.e));
      AddAligned(|Built(c.parent)| + RecLen(c.e), LenAll(c.e.kids));
    } else {
      AddAligned(8, LenAll(c.roots));
    }
  }

  /** Adding a complete element appends its encoding. */
  lemma BuiltAdd(c: Ctx, k: Elem)
    requires Open(c)
    ensures Built(Add(c, k)) == Built(c) + Enc(k, |Built(c)|)
    ensures Slots(Add(c, k)) == Slots(c) && Cursor(Add(c, k)) == End(k)
  {
    hide Enc, EncAll, OpenRec, LenAll;
    match c
    case Root(roots) =>
      EncAllAppend(roots, k, 8);
      AssocOf(Built(Add(c, k)), MAGIC + U16(0) + U16(0), EncAll(roots, 8), Enc(k, |Built(c)|));
    case In(p, e) =>
      var pos := |Built(p)| + RecLen(e);
      EncAllAppend(e.kids, k, pos);
      BuiltAddIn(p, e, k);
      AssocOf(Built(Add(c, k)), Built(p) + OpenRec(e, |Built(p)|), EncAll(e.kids, pos), Enc(k, |Built(c)|));
  }

  /** The record of an open composite does not depend on its members. */
  lemma BuiltAddIn(p: Ctx, e: Elem, k: Elem)
    requires Open(In(p, e))
    ensures Built(Add(In(p, e), k))
            == Built(p) + OpenRec(e, |Built(p)|) + EncAll(e.kids + [k], |Built(p)| + RecLen(e))
  {
    hide EncAll, OpenRec, RecLen, Built, LenAll, Add;
    AddIn(p, e, k);
    SameRecord(e, e.kids + [k], |Built(p)|);
    BuiltIn(p, e.(kids := e.kids + [k]));
  }

  lemma AddIn(p: Ctx, e: Elem, k: Elem)
    requires Open(In(p, e))
    ensures var e' := e.(kids := e.kids + [k]);
            Add(In(p, e), k) == In(p, e') && Open(In(p, e')) && e'.kids == e.kids + [k]
  {
  }

  lemma BuiltIn(p: Ctx, e: Elem)
    requires Open(In(p, e))
    ensures Built(In(p, e)) == Built(p) + OpenRec(e, |Built(p)|) + EncAll(e.kids, |Built(p)| + RecLen(e))
  {
    hide EncAll, OpenRec, RecLen, MAGIC, U16;
  }

  lemma SameRecord(e: Elem, kids: seq<Elem>, pos: nat)
    requires !e.Simple?
    ensures OpenRec(e.(kids := kids), pos) == OpenRec(e, pos) && RecLen(e.(kids := kids)) == RecLen(e)
  {
    hide Rec, Dims, U16, PadLen;
    match e
    case Struct(_, _, _, _) =>
    case Array(_, _, _, _, _) =>
  }

  lemma SoundAdd(c: Ctx, k: Elem)
    requires Sound(c) && Laid(k) && Wire(k) && Cursor(c) <= k.off
    ensures Sound(Add(c, k))
  {
    LaidMore(Members(c), k, Start(c));
    WireMore(Members(c), k);
    hide LaidAll, WireAll, EndOf, Laid, Wire, Declared;
    assert Members(Add(c, k)) == Members(c) + [k] && Start(Add(c, k)) == Start(c);
  }

  lemma LaidMore(kids: seq<Elem>, k: Elem, start: int)
    requires LaidAll(kids, start) && Laid(k) && EndOf(kids, start) <= k.off
    ensures LaidAll(kids + [k], start)
  {
    hide Laid, EndOf;
    assert (kids + [k])[..|kids|] == kids;
  }

  lemma WireMore(kids: seq<Elem>, k: Elem)
    requires WireAll(kids) && Wire(k)
    ensures WireAll(kids + [k])
  {
    hide Wire;
  }

  /** What adding a complete element does to everything the builder keeps. */
  lemma AddStep(c: Ctx, k: Elem)
    requires Sound(c) && Laid(k) && Wire(k) && Cursor(c) <= k.off
    ensures Sound(Add(c, k))
    ensures Built(Add(c, k)) == Built(c) + Enc(k, |Built(c)|)
    ensures Slots(Add(c, k)) == Slots(c) && Cursor(Add(c, k)) == End(k)
  {
    hide Enc, Laid, Wire, Built, Slots, Cursor, End;
    BuiltAdd(c, k);
    SoundAdd(c, k);
  }

  lemma SimpleOk(k: Elem)
    requires k.Simple? && |k.name| <= 243 && k.user < 0x1_0000_0000 && End(k) <= 65535
    ensures Laid(k) && Wire(k) && Len(k) == RecLen(k)
  {
  }

  /** What opening a composite does to everything the builder keeps. */
  lemma OpenStep(c: Ctx, e: Elem)
    requires Sound(c) && !e.Simple? && e.kids == [] && Declared(e) && Cursor(c) <= e.off
    ensures Sound(In(c, e)) && Cursor(In(c, e)) == e.off
    ensures Built(In(c, e)) == Built(c) + OpenRec(e, |Built(c)|)
    ensures Slots(In(c, e)) == Slots(c) + [|Built(c)|, e.off]
  {
    hide OpenRec, RecLen;
    assert Built(In(c, e)) == Built(c) + OpenRec(e, |Built(c)|) + [];
  }

  // ---------------------------------------------------------------- closing a composite

  /** The record of a struct whose members are in place, after the last two patches. */
  lemma ClosedStructData(e: Elem, pos: nat)
    requires e.Struct?
    ensures Patch(Patch(OpenData(e, pos), 4, [|e.kids| % 256]), 2, U16(pos + Len(e))) == OwnData(e, pos)
  {
    hide RecLen, Len;
  }

  lemma ArrayStridePatched(e: Elem, first: int, stride: byte)
    requires e.Array?
    ensures Patch(CompositeData(e, first, 0, 0, 0), 5, [stride]) == CompositeData(e, first, 0, 0, stride)
  {
    hide Dims;
  }

  lemma ArrayEndPatched(e: Elem, first: int, end: int, stride: byte)
    requires e.Array?
    ensures Patch(CompositeData(e, first, 0, 0, stride), 2, U16(end)) == CompositeData(e, first, end, 0, stride)
  {
    hide Dims;
  }

  lemma ArrayFlagPatched(e: Elem, first: int, end: int, stride: byte, members: nat)
    requires e.Array? && |e.dims| < 128
    ensures var d := CompositeData(e, first, end, 0, stride);
            && d[4] == |e.dims|
            && CompositeData(e, first, end, members, stride)
               == if members % 256 == 1 then Patch(d, 4, [d[4] + 128]) else d
  {
    hide Dims;
  }

  lemma ArrayDataParts(buf: seq<byte>, pos: nat, e: Elem, first: int, end: int, stride: byte)
    requires e.Array? && |e.dims| < 128 && Has(buf, pos, CompositeData(e, first, end, 0, stride))
    ensures ReadU8At(buf, pos + 4) == |e.dims| && Has(buf, pos + 6, Dims(e.dims))
  {
    hide Dims;
    var head := U16(first) + U16(end) + [|e.dims|, stride];
    HasSplit(buf, pos, head, Dims(e.dims));
    assert buf[pos + 4] == head[4];
  }

  lemma PadShift(a: nat, n: nat)
    requires a % 8 == 0
    ensures PadLen(a + n) == PadLen(n)
  {
    assert (a + n) % 8 == n % 8;
  }

  lemma {:induction false} ProdAppend(dims: seq<nat>, i: nat)
    requires i < |dims|
    ensures Prod(dims[..i + 1]) == Prod(dims[..i]) * dims[i]
    decreases |dims|
  {
    if i == 0 {
      assert dims[..1][1..] == [];
    } else {
      assert dims[..i + 1][1..] == dims[1..][..i] && dims[..i][1..] == dims[1..][..i - 1];
      ProdAppend(dims[1..], i - 1);
      assert dims[0] * (Prod(dims[1..][..i - 1]) * dims[i]) == (dims[0] * Prod(dims[1..][..i - 1])) * dims[i];
    }
  }

  lemma PaddedRec(a: seq<byte>, kind: byte, name: seq<byte>, next: int, off: int, size: int, user: int, data: seq<byte>)
    requires |a| % 8 == 0
    ensures var raw := a + HeaderBytes(kind, name, next, off, size, user) + data;
            raw + Zeros(PadLen(|raw|)) == a + Rec(kind, name, next, off, size, user, data)
  {
    hide HeaderBytes, PadLen, Zeros;
    PadShift(|a|, 12 + |CStr(name)| + |data|);
    var h, pad := HeaderBytes(kind, name, next, off, size, user), Zeros(PadLen(12 + |CStr(name)| + |data|));
    assert a + h + data + pad == a + (h + data + pad);
  }

  /** The writes made for a simple element amount to appending its encoding. */
  lemma SimpleBuilt(a: seq<byte>, k: Elem)
    requires k.Simple? && |a| % 8 == 0
    ensures var raw := a + HeaderBytes(0, k.name, 0xFFFF, k.off, 0, k.user) + [k.fmt];
            var padded := raw + Zeros(PadLen(|raw|));
            && |padded| == |a| + RecLen(k)
            && Patch(Patch(padded, |a| + 2, U16(|padded|)), |a| + 6, U16(k.size)) == a + Enc(k, |a|)
  {
    hide HeaderBytes, PadLen, Zeros, Rec, Patch, U16;
    PaddedRec(a, 0, k.name, 0xFFFF, k.off, 0, k.user, [k.fmt]);
    var r := Rec(0, k.name, 0xFFFF, k.off, 0, k.user, [k.fmt]);
    var r' := Rec(0, k.name, |a| + Len(k), k.off, 0, k.user, [k.fmt]);
    assert a + r == a + r + [] && a + r' == a + r' + [] && a + Enc(k, |a|) == a + Enc(k, |a|) + [];
    PatchNextIn(a, [], 0, k.name, 0xFFFF, k.off, 0, k.user, [k.fmt], |a| + Len(k));
    PatchSizeIn(a, [], 0, k.name, |a| + Len(k), k.off, 0, k.user, [k.fmt], k.size);
  }

  /** A buffer that ends with the record of a composite, in any state of completion, and its
      members. */
  function Closing(a: seq<byte>, e: Elem, next: int, size: int, data: seq<byte>): (s: seq<byte>)
    requires !e.Simple? && |data| == DataLen(e)
    ensures |s| == |a| + Len(e)
  {
    a + Rec(Kind(e), e.name, next, e.off, size, e.user, data) + EncAll(e.kids, |a| + RecLen(e))
  }

  lemma PatchNext(a: seq<byte>, e: Elem, next: int, size: int, data: seq<byte>, v: int)
    requires !e.Simple? && |data| == DataLen(e)
    ensures Patch(Closing(a, e, next, size, data), |a| + 2, U16(v)) == Closing(a, e, v, size, data)
  {
    hide Rec, EncAll, U16, Patch;
    PatchNextIn(a, EncAll(e.kids, |a| + RecLen(e)), Kind(e), e.name, next, e.off, size, e.user, data, v);
  }

  lemma PatchSize(a: seq<byte>, e: Elem, next: int, size: int, data: seq<byte>, v: int)
    requires !e.Simple? && |data| == DataLen(e)
    ensures Patch(Closing(a, e, next, size, data), |a| + 6, U16(v)) == Closing(a, e, next, v, data)
  {
    hide Rec, EncAll, U16, Patch;
    PatchSizeIn(a, EncAll(e.kids, |a| + RecLen(e)), Kind(e), e.name, next, e.off, size, e.user, data, v);
  }

  lemma PatchData(a: seq<byte>, e: Elem, next: int, size: int, data: seq<byte>, at: nat, v: seq<byte>)
    requires !e.Simple? && |data| == DataLen(e) && at + |v| <= |data|
    ensures Patch(Closing(a, e, next, size, data), |a| + 12 + |CStr(e.name)| + at, v)
            == Closing(a, e, next, size, Patch(data, at, v))
  {
    hide Rec, EncAll, U16, Patch;
    PatchDataIn(a, EncAll(e.kids, |a| + RecLen(e)), Kind(e), e.name, next, e.off, size, e.user, data, at, v);
  }

  /** Reading the record that is being closed. */
  lemma ReadClosing(a: seq<byte>, e: Elem, next: nat, size: nat, data: seq<byte>)
    requires !e.Simple? && |data| == DataLen(e) && Declared(e)
    requires next <= 65535 && e.off <= 65535 && size <= 65535
    ensures var buf := Closing(a, e, next, size, data);
            && |a| + 12 <= |buf| && |a| + 12 + buf[|a| + 1] <= |buf|
            && DecodeHeader(buf, |a|).sizeofThisHeader == 12 + |CStr(e.name)|
            && Has(buf, |a| + 12 + |CStr(e.name)|, data)
            && Has(buf, |a| + RecLen(e), EncAll(e.kids, |a| + RecLen(e)))
  {
    hide Rec, EncAll, DecodeHeader;
    var r, k := Rec(Kind(e), e.name, next, e.off, size, e.user, data), EncAll(e.kids, |a| + RecLen(e));
    HasMiddle(a, r, k);
    HasMiddle(a + r, k, []);
    assert a + r + k + [] == a + r + k;
    DecodesRec(a + r + k, |a|, Kind(e), e.name, next, e.off, size, e.user, data);
  }

  lemma ReadFirstChild(buf: seq<byte>, pos: nat, e: Elem, first: nat, end: int, stride: int)
    requires !e.Simple? && first <= 65535
    requires Has(buf, pos, CompositeData(e, first, end, 0, stride))
    ensures ReadU16At(buf, pos) == first
  {
    hide ReadU16At, Dims;
    assert CompositeData(e, first, end, 0, stride)[..2] == U16(first);
    var rest := CompositeData(e, first, end, 0, stride)[2..];
    assert CompositeData(e, first, end, 0, stride) == U16(first) + rest;
    HasSplit(buf, pos, U16(first), rest);
    HasU16(buf, pos, first);
  }

  lemma SoundRoot(c: Ctx)
    requires Sound(c) && c.Root?
    ensures LaidAll(c.roots, 0) && WireAll(c.roots)
  {
  }

  /** The two sizes written last. */
  lemma HeaderPatched(body: seq<byte>, total: nat, size: nat)
    ensures Patch(Patch(MAGIC + U16(0) + U16(0) + body, 4, U16(total)), 6, U16(size))
            == MAGIC + U16(total) + U16(size) + body
  {
    assert MAGIC + U16(0) + U16(0) + body == MAGIC + (U16(0) + U16(0)) + body;
    PatchMiddle(MAGIC, U16(0) + U16(0), body, 4, U16(total));
    assert Patch(U16(0) + U16(0), 0, U16(total)) == U16(total) + U16(0);
    PatchMiddle(MAGIC, U16(total) + U16(0), body, 6, U16(size));
    assert Patch(U16(total) + U16(0), 2, U16(size)) == U16(total) + U16(size);
  }

  lemma CountStep(n: nat)
    ensures (n % 256 + 1) % 256 == (n + 1) % 256
  {
  }

  lemma ReadOpenFirstChild(buf: seq<byte>, at: nat, e: Elem, pos: nat)
    requires !e.Simple? && Has(buf, at, OpenData(e, pos)) && pos + RecLen(e) <= 65535
    ensures ReadU16At(buf, at) == pos + RecLen(e)
  {
    ReadFirstChild(buf, at, e, pos + RecLen(e), 0, 0);
  }

  lemma WireSize(e: Elem)
    requires Wire(e)
    ensures 0 <= SizeOf(e) <= 65535 && e.off <= 65535
    ensures !e.Simple? ==> WireAll(e.kids) && Len(e) == RecLen(e) + LenAll(e.kids)
    ensures e.Array? ==> 0 <= Stride(e) <= 255
  {
  }

  /** What closing a composite does to everything the builder keeps. */
  lemma CloseStep(p: Ctx, e: Elem)
    requires Sound(In(p, e)) && Wire(e)
    ensures Laid(e) && Sound(Add(p, e))
    ensures Built(In(p, e)) == Closing(Built(p), e, 0xFFFF, 0, OpenData(e, |Built(p)|))
    ensures Built(Add(p, e)) == Closing(Built(p), e, |Built(p)| + Len(e), SizeOf(e), OwnData(e, |Built(p)|))
    ensures Slots(In(p, e)) == Slots(Add(p, e)) + [|Built(p)|, e.off]
    ensures Cursor(Add(p, e)) == End(e)
  {
    hide Enc, Built, Wire, Slots, Cursor, Rec, EncAll, Len, RecLen, OpenData, OwnData, SizeOf, End, Sound;
    hide Laid, LaidAll, Add, DataLen, PadLen;
    SoundParts(p, e);
    AddStep(p, e);
    BuiltIn(p, e);
    SlotsIn(p, e);
    EncIs(e, Built(p));
  }

  lemma SoundParts(p: Ctx, e: Elem)
    requires Sound(In(p, e))
    ensures Sound(p) && Laid(e) && Cursor(p) <= e.off && !e.Simple?
  {
    hide Built, Slots;
  }

  /** A composite whose record can be closed fits its fields. */
  lemma CompositeWire(p: Ctx, e: Elem)
    requires Sound(In(p, e)) && Cursor(In(p, e)) <= 65535
    requires e.Array? ==> Stride(e) <= 255 && End(e) <= 65535
    ensures Wire(e) && Declared(e) && 0 <= SizeOf(e)
    ensures e.Struct? ==> End(e) == Cursor(In(p, e)) && SizeOf(e) == Cursor(In(p, e)) - e.off
  {
    hide Built, Slots;
    SoundParts(p, e);
    EndGrows(e);
  }

  lemma ArraySizes(p: Ctx, e: Elem)
    requires Sound(In(p, e)) && e.Array?
    ensures Stride(e) == Cursor(In(p, e)) - e.off
    ensures End(e) == e.off + SizeOf(e)
  {
    hide Built, Slots, Sound, Prod, Open;
  }

  lemma ArraySize(e: Elem)
    requires e.Array?
    ensures SizeOf(e) == Stride(e) * Prod(e.dims)
  {
    hide Prod, EndOf;
  }

  /** The 8-bit stride and the two 16-bit steps of the cursor lose nothing. */
  lemma CursorMoves(cursor: nat, off: nat, stride: int, size: int)
    requires stride == cursor - off && 0 <= stride <= 255 && 0 <= size && off + size <= 65535
    ensures (cursor - off) % 256 == stride
    ensures ((cursor - stride) % 65536 + size) % 65536 == off + size
  {
  }

  lemma ProdOne(dims: seq<nat>)
    requires dims != []
    ensures Prod(dims[..1]) == dims[0]
  {
    assert dims[..1][1..] == [];
  }

  lemma StoredName(name: seq<byte>)
    ensures |CStr(name)| == if name == [] then 0 else 1 + |name|
  {
  }

  lemma NoPad(buf: seq<byte>)
    requires |buf| % 8 == 0
    ensures buf + Zeros(PadLen(|buf|)) == buf
  {
  }

  lemma SlotsIn(p: Ctx, e: Elem)
    requires Open(In(p, e))
    ensures Slots(In(p, e)) == Slots(p) + [|Built(p)|, e.off]
  {
    hide Built;
  }

  lemma EncIs(e: Elem, a: seq<byte>)
    requires !e.Simple?
    ensures a + Enc(e, |a|) == Closing(a, e, |a| + Len(e), SizeOf(e), OwnData(e, |a|))
  {
    hide Closing, Enc, OwnRec, EncAll, OwnData, RecLen, Len, LenAll, SizeOf;
    EncUnfold(e, |a|);
    AssocOf(a + Enc(e, |a|), a, OwnRec(e, |a|), EncAll(e.kids, |a| + RecLen(e)));
    ClosingIs(e, a);
  }

  lemma ClosingIs(e: Elem, a: seq<byte>)
    requires !e.Simple?
    ensures Closing(a, e, |a| + Len(e), SizeOf(e), OwnData(e, |a|))
            == a + OwnRec(e, |a|) + EncAll(e.kids, |a| + RecLen(e))
  {
    hide Enc, Rec, EncAll, OwnData, RecLen, Len, LenAll, SizeOf, CStr, DataLen, PadLen;
  }

  /** The writes made when a composite is opened amount to appending its open record. */
  lemma OpenBuilt(a: seq<byte>, e: Elem)
    requires !e.Simple? && |a| % 8 == 0
    ensures var raw := a + HeaderBytes(Kind(e), e.name, 0xFFFF, e.off, 0, e.user) + CompositeData(e, 0, 0, 0, 0);
            var padded := raw + Zeros(PadLen(|raw|));
            && |padded| == |a| + RecLen(e)
            && Patch(padded, |a| + 12 + |CStr(e.name)|, U16(|padded|)) == a + OpenRec(e, |a|)
  {
    hide HeaderBytes, PadLen, Zeros, Rec, Patch, U16, CompositeData;
    var data := CompositeData(e, 0, 0, 0, 0);
    PaddedRec(a, Kind(e), e.name, 0xFFFF, e.off, 0, e.user, data);
    var r := Rec(Kind(e), e.name, 0xFFFF, e.off, 0, e.user, data);
    assert a + r == a + r + [] && a + OpenRec(e, |a|) == a + OpenRec(e, |a|) + [];
    PatchDataIn(a, [], Kind(e), e.name, 0xFFFF, e.off, 0, e.user, data, 0, U16(|a| + RecLen(e)));
    FirstChildPatched(e, |a| + RecLen(e));
  }

  lemma FirstChildPatched(e: Elem, first: nat)
    requires !e.Simple?
    ensures Patch(CompositeData(e, 0, 0, 0, 0), 0, U16(first)) == CompositeData(e, first, 0, 0, 0)
  {
    hide Dims;
  }

  function MakeSimple(offset: nat, name: seq<byte>, fmt: byte, user: nat, paddedSize: nat): Elem {
    Simple(name, offset, user, fmt, if paddedSize == U32MAX then DataFormat.GetSize(fmt) else paddedSize)
  }

  class DefBuilder {
    var stack: seq<nat>
    var buffer: seq<byte>
    var sizeofDataBlob: nat
    var flagBegin: bool
    var flagError: bool
    ghost var ctx: Ctx

    ghost predicate Valid()
      reads this
    {
      flagBegin ==>
        && Sound(ctx) && buffer == Built(ctx) && stack == Slots(ctx)
        && sizeofDataBlob == Cursor(ctx) && sizeofDataBlob <= 65535 && |buffer| <= 65535
    }

    /** An element that starts at `offset` will be added. */
    predicate Accepts(offset: nat)
      reads this
    {
      flagBegin && !flagError && sizeofDataBlob <= offset
    }

    /** The composite at the top can be closed. */
    predicate InComposite()
      reads this
    {
      flagBegin && !flagError
    }

    constructor ()
      ensures Valid() && !flagBegin && flagError
    {
      stack, buffer, sizeofDataBlob := [], [], 0;
      flagBegin, flagError := false, true;
      ctx := Root([]);
    }

    method Begin()
      modifies this
      ensures Valid() && flagBegin && !flagError && ctx == Root([])
    {
      flagBegin, flagError := true, false;
      sizeofDataBlob, buffer, stack := 0, [], [];
      buffer := buffer + MAGIC;
      buffer := buffer + U16(0);
      buffer := buffer + U16(0);
      ctx := Root([]);
      assert Built(ctx) == buffer;
    }

    /** Balanced descriptions end with every composite closed. */
    method End() returns (ok: bool)
      requires Valid() && (InComposite() ==> ctx.Root?)
      modifies this
      ensures ok == old(InComposite())
      ensures ok ==> buffer == EncDef(old(ctx).roots) && WellBuilt(old(ctx).roots) && !flagBegin && !flagError
      ensures !ok ==> unchanged(this)
      ensures Valid()
    {
      if flagError || !flagBegin {
        return false;
      }
      hide EncAll, LenAll, Sound, Slots, Patch, U16;
      HeaderPatched(EncAll(ctx.roots, 8), |buffer|, sizeofDataBlob);
      SoundRoot(ctx);
      var total := |buffer|;
      buffer := Patch(buffer, 4, U16(total));
      buffer := Patch(buffer, 6, U16(sizeofDataBlob));
      flagBegin, flagError := false, false;
      ok := true;
    }

    method PrivAddPad()
      modifies this`buffer
      ensures buffer == old(buffer) + Zeros(PadLen(|old(buffer)|))
    {
      var pad := |buffer| % 8;
      if pad == 0 {
        assert buffer == old(buffer) + Zeros(0);
        return;
      }
      pad := 8 - pad;
      ghost var done := 0;
      while pad > 0
        invariant 0 <= pad && done + pad == PadLen(|old(buffer)|)
        invariant buffer == old(buffer) + Zeros(done)
      {
        pad := pad - 1;
        buffer := buffer + [0];
        done := done + 1;
      }
    }

    method PrivElemBegin(kind: byte, name: seq<byte>, user: nat)
      requires |stack| <= 30
      modifies this`buffer, this`stack
      ensures buffer == old(buffer) + HeaderBytes(kind, name, 0xFFFF, sizeofDataBlob, 0, user)
      ensures stack == old(stack) + [|old(buffer)|]
    {
      StoredName(name);
      hide U16, U32, CStr;
      var pos := |buffer|;
      stack := stack + [pos];
      buffer := buffer + [kind];
      var nameLen := if name == [] then 0 else (1 + |name|) % 256;
      buffer := buffer + [nameLen];
      buffer := buffer + U16(0xFFFF);
      buffer := buffer + U16(sizeofDataBlob);
      buffer := buffer + U16(0);
      buffer := buffer + U32(user);
      buffer := buffer + CStr(name);
    }

    method PrivElemEnd() returns (pos: nat)
      requires stack != [] && stack[|stack| - 1] + 4 <= |buffer|
      modifies this`buffer, this`stack
      ensures pos == old(stack)[|old(stack)| - 1] && stack == old(stack)[..|old(stack)| - 1]
      ensures var padded := old(buffer) + Zeros(PadLen(|old(buffer)|));
              buffer == Patch(padded, pos + 2, U16(|padded|))
    {
      pos := stack[|stack| - 1];
      stack := stack[..|stack| - 1];
      PrivAddPad();
      buffer := Patch(buffer, pos + 2, U16(|buffer|));
    }

    method AddSimpleTypeAtOffset(offset: nat, name: seq<byte>, fmt: byte, user: nat, paddedSize: nat)
      requires Valid() && offset <= 65535 && |name| <= 243 && user < 0x1_0000_0000
      requires Accepts(offset) ==>
        var k := MakeSimple(offset, name, fmt, user, paddedSize);
        |stack| <= 30 && |buffer| + RecLen(k) <= 65535 && offset + k.size <= 65535
      modifies this
      ensures Valid() && flagBegin == old(flagBegin) && flagError == !old(Accepts(offset))
      ensures ctx == if old(Accepts(offset)) then Add(old(ctx), MakeSimple(offset, name, fmt, user, paddedSize))
                     else old(ctx)
      ensures old(Accepts(offset)) && paddedSize != U32MAX ==> sizeofDataBlob == offset + paddedSize
      ensures old(Accepts(offset)) && paddedSize == U32MAX ==>
                forall f: DataFormat.Format :: DataFormat.Sane(f) && DataFormat.Packed(f) == fmt ==>
                                                 sizeofDataBlob == offset + DataFormat.NumBytes(f)
      ensures !old(Accepts(offset)) ==> sizeofDataBlob == old(sizeofDataBlob) && buffer == old(buffer)
    {
      hide Enc, Built, Slots, Sound, Cursor, Add, RecLen, DataFormat.GetSize, Len, Laid, Wire, DataFormat.Packed;
      if !flagBegin { flagError := true; }
      if offset < sizeofDataBlob { flagError := true; }
      if flagError { return; }
      ghost var k := MakeSimple(offset, name, fmt, user, paddedSize);
      SimpleOk(k);
      sizeofDataBlob := offset;
      BuiltAligned(ctx);
      var size := PrivSimple(name, fmt, user, paddedSize, k);
      sizeofDataBlob := (sizeofDataBlob + size) % 65536;
      AddStep(ctx, k);
      ctx := Add(ctx, k);
      forall f: DataFormat.Format | DataFormat.Sane(f) && DataFormat.Packed(f) == fmt
        ensures DataFormat.GetSize(fmt) == DataFormat.NumBytes(f)
      {
        DataFormat.Unpacked(f);
      }
    }

    /** The record of a simple element. */
    method PrivSimple(name: seq<byte>, fmt: byte, user: nat, paddedSize: nat, ghost k: Elem) returns (size: nat)
      requires |stack| <= 30 && |buffer| % 8 == 0 && k == MakeSimple(sizeofDataBlob, name, fmt, user, paddedSize)
      modifies this`buffer, this`stack
      ensures buffer == old(buffer) + Enc(k, |old(buffer)|) && stack == old(stack) && size == k.size
    {
      hide Enc, HeaderBytes, PadLen, Zeros, Patch, U16;
      ghost var before := buffer;
      SimpleBuilt(before, k);
      PrivElemBegin(0, name, user);
      buffer := buffer + [fmt];
      var pos := PrivElemEnd();
      size := if paddedSize == U32MAX then DataFormat.GetSize(fmt) else paddedSize;
      buffer := Patch(buffer, pos + 6, U16(size));
    }

    method StructBeginAtOffset(offset: nat, name: seq<byte>, user: nat)
      requires Valid() && offset <= 65535 && |name| <= 243 && user < 0x1_0000_0000
      requires Accepts(offset) ==> |stack| <= 29 && |buffer| + RecLen(Struct(name, offset, user, [])) <= 65535
      modifies this
      ensures Valid() && flagBegin == old(flagBegin) && flagError == !old(Accepts(offset))
      ensures ctx == if old(Accepts(offset)) then In(old(ctx), Struct(name, offset, user, [])) else old(ctx)
    {
      hide Built, Slots, Sound, Cursor, RecLen, HeaderBytes, OpenRec, Zeros, PadLen;
      if !flagBegin { flagError := true; }
      if offset < sizeofDataBlob { flagError := true; }
      if flagError { return; }
      ghost var e := Struct(name, offset, user, []);
      BuiltAligned(ctx);
      OpenBuilt(buffer, e);
      OpenStep(ctx, e);
      sizeofDataBlob := offset;
      PrivElemBegin(1, name, user);
      stack := stack + [sizeofDataBlob];
      ghost var head := buffer;
      var posOfFirstChild := |buffer|;
      buffer := buffer + U16(0);
      buffer := buffer + U16(0);
      buffer := buffer + U16(0);
      assert buffer == head + CompositeData(e, 0, 0, 0, 0);
      PrivAddPad();
      buffer := Patch(buffer, posOfFirstChild, U16(|buffer|));
      ctx := In(ctx, e);
    }

    /** One, two or three dimensions, one entry point each in the source. */
    method ArrayBeginAtOffset(offset: nat, name: seq<byte>, dims: seq<nat>, user: nat)
      requires Valid() && offset <= 65535 && |name| <= 243 && user < 0x1_0000_0000
      requires 1 <= |dims| <= 3 && forall k :: 0 <= k < |dims| ==> 1 <= dims[k] <= 65535
      requires Accepts(offset) ==> |stack| <= 29 && |buffer| + RecLen(Array(name, offset, user, dims, [])) <= 65535
      modifies this
      ensures Valid() && flagBegin == old(flagBegin) && flagError == !old(Accepts(offset))
      ensures ctx == if old(Accepts(offset)) then In(old(ctx), Array(name, offset, user, dims, [])) else old(ctx)
    {
      hide Built, Slots, Sound, Cursor, RecLen, HeaderBytes, OpenRec, Zeros, PadLen;
      if !flagBegin { flagError := true; }
      if offset < sizeofDataBlob { flagError := true; }
      if flagError { return; }
      ghost var e := Array(name, offset, user, dims, []);
      BuiltAligned(ctx);
      OpenBuilt(buffer, e);
      OpenStep(ctx, e);
      sizeofDataBlob := offset;
      PrivElemBegin(2, name, user);
      stack := stack + [sizeofDataBlob];
      ghost var head := buffer;
      var posOfFirstChild := |buffer|;
      PrivArrayData(dims, e);
      PrivAddPad();
      buffer := Patch(buffer, posOfFirstChild, U16(|buffer|));
      ctx := In(ctx, e);
    }

    method PrivArrayData(dims: seq<nat>, ghost e: Elem)
      requires e.Array? && e.dims == dims && |dims| <= 3
      modifies this`buffer
      ensures buffer == old(buffer) + CompositeData(e, 0, 0, 0, 0)
    {
      buffer := buffer + U16(0);
      buffer := buffer + U16(0);
      buffer := buffer + [|dims|];
      buffer := buffer + [0];
      ghost var head := buffer;
      for i := 0 to |dims|
        invariant buffer == head + Dims(dims[..i])
      {
        assert dims[..i + 1][..i] == dims[..i];
        buffer := buffer + U16(dims[i]);
      }
      assert dims[..|dims|] == dims;
    }

    /** Follows the `next` fields of the members of the composite being closed. */
    method PrivCountMembers(first: nat, ghost kids: seq<Elem>) returns (numMembers: nat)
      requires Has(buffer, first, EncAll(kids, first)) && WireAll(kids)
      requires first + LenAll(kids) == |buffer| <= 65535
      ensures numMembers == |kids| % 256
    {
      hide Enc, DecodeHeader, EncAll, Len, LenAll, WireAll;
      LenAllNil();
      var pos := first;
      numMembers := 0;
      ghost var rest := kids;
      while pos < |buffer|
        invariant Has(buffer, pos, EncAll(rest, pos)) && WireAll(rest) && pos + LenAll(rest) == |buffer|
        invariant |rest| <= |kids| && numMembers == (|kids| - |rest|) % 256
        decreases |buffer| - pos
      {
        RunHeader(buffer, pos, rest);
        var header := DecodeHeader(buffer, pos);
        pos := header.next;
        CountStep(|kids| - |rest|);
        numMembers := (numMembers + 1) % 256;
        rest := rest[1..];
      }
      LenAllPositive(rest);
    }

    /** Takes a composite off the stack and fills the `next` field of its record. */
    method PrivClose(ghost p: Ctx, ghost e: Elem) returns (pos: nat, before: nat)
      requires Sound(In(p, e)) && Wire(e) && buffer == Built(In(p, e)) && stack == Slots(In(p, e))
      modifies this`buffer, this`stack
      ensures pos == |Built(p)| && before == e.off && stack == Slots(Add(p, e))
      ensures buffer == Closing(Built(p), e, |Built(p)| + Len(e), 0, OpenData(e, |Built(p)|))
    {
      hide Built, Slots, Sound, Closing, Len, OpenData, Rec, Wire, Laid;
      CloseStep(p, e);
      BuiltAligned(In(p, e));
      NoPad(buffer);
      before := stack[|stack| - 1];
      stack := stack[..|stack| - 1];
      pos := PrivElemEndClosing(p, e);
    }

    method PrivElemEndClosing(ghost p: Ctx, ghost e: Elem) returns (pos: nat)
      requires Open(p) && !e.Simple? && stack == Slots(Add(p, e)) + [|Built(p)|]
      requires |buffer| % 8 == 0 && buffer == Closing(Built(p), e, 0xFFFF, 0, OpenData(e, |Built(p)|))
      modifies this`buffer, this`stack
      ensures pos == |Built(p)| && stack == Slots(Add(p, e))
      ensures buffer == Closing(Built(p), e, |Built(p)| + Len(e), 0, OpenData(e, |Built(p)|))
    {
      hide Built, Slots, Closing, OpenData, Rec, Len, Patch, Zeros;
      NoPad(buffer);
      PatchNext(Built(p), e, 0xFFFF, 0, OpenData(e, |Built(p)|), |buffer|);
      pos := PrivElemEnd();
    }

    method StructEnd()
      requires Valid() && (InComposite() ==> ctx.In? && ctx.e.Struct?)
      modifies this
      ensures Valid() && flagBegin == old(flagBegin) && flagError == !old(InComposite())
      ensures ctx == if old(InComposite()) then Add(old(ctx).parent, old(ctx).e) else old(ctx)
    {
      hide Built, Slots, Sound, Closing, Len, OpenData, OwnData, Rec, Wire, Laid, Patch, DecodeHeader, U16, Cursor,
           SizeOf, ReadU16At;
      if !flagBegin { flagError := true; }
      if flagError { return; }
      ghost var p, e := ctx.parent, ctx.e;
      ghost var a := Built(p);
      CompositeWire(p, e);
      CloseStep(p, e);
      var pos, before := PrivClose(p, e);
      var size := (sizeofDataBlob - before) % 65536;
      PatchSize(a, e, |a| + Len(e), 0, OpenData(e, |a|), size);
      buffer := Patch(buffer, pos + 6, U16(size));
      PrivFinishStruct(pos, a, e);
      ctx := Add(p, e);
    }

    method PrivFinishStruct(pos: nat, ghost a: seq<byte>, ghost e: Elem)
      requires e.Struct? && Wire(e) && Declared(e) && pos == |a| && |buffer| <= 65535
      requires buffer == Closing(a, e, |a| + Len(e), SizeOf(e), OpenData(e, |a|))
      modifies this`buffer
      ensures buffer == Closing(a, e, |a| + Len(e), SizeOf(e), OwnData(e, |a|))
    {
      hide Closing, Len, OwnData, OpenData, Rec, Wire, Laid, Patch, DecodeHeader, U16, Cursor, SizeOf, ReadU16At,
           EncAll;
      ghost var data := OpenData(e, |a|);
      WireSize(e);
      ReadClosing(a, e, |a| + Len(e), SizeOf(e), data);
      var header := DecodeHeader(buffer, pos);
      var posDataBlock := pos + header.sizeofThisHeader;
      ReadOpenFirstChild(buffer, posDataBlock, e, |a|);
      var posFirstChild := ReadU16At(buffer, posDataBlock);
      var numMembers := PrivCountMembers(posFirstChild, e.kids);
      PatchData(a, e, |a| + Len(e), SizeOf(e), data, 4, [numMembers]);
      buffer := Patch(buffer, posDataBlock + 4, [numMembers]);
      PatchData(a, e, |a| + Len(e), SizeOf(e), Patch(data, 4, [numMembers]), 2, U16(|buffer|));
      buffer := Patch(buffer, posDataBlock + 2, U16(|buffer|));
      ClosedStructData(e, |a|);
    }

    method ArrayEnd()
      requires Valid()
      requires InComposite() ==>
        ctx.In? && ctx.e.Array? && Stride(ctx.e) <= 255 && BlobTree.End(ctx.e) <= 65535
      modifies this
      ensures Valid() && flagBegin == old(flagBegin) && flagError == !old(InComposite())
      ensures ctx == if old(InComposite()) then Add(old(ctx).parent, old(ctx).e) else old(ctx)
    {
      hide Built, Slots, Sound, Closing, Len, OpenData, OwnData, Rec, Wire, Laid, Cursor, SizeOf, Stride,
           BlobTree.End, Prod, Add, Declared, RecLen;
      if !flagBegin { flagError := true; }
      if flagError { return; }
      ghost var p, e := ctx.parent, ctx.e;
      CompositeWire(p, e);
      WireSize(e);
      ArraySizes(p, e);
      CloseStep(p, e);
      CursorMoves(sizeofDataBlob, e.off, Stride(e), SizeOf(e));
      var pos, before := PrivClose(p, e);
      var oneElem := (sizeofDataBlob - before) % 256;
      var total := PrivFinishArray(pos, oneElem, Built(p), e);
      sizeofDataBlob := (sizeofDataBlob - oneElem) % 65536;
      sizeofDataBlob := (sizeofDataBlob + total) % 65536;
      ctx := Add(p, e);
    }

    method PrivFinishArray(pos: nat, oneElem: byte, ghost a: seq<byte>, ghost e: Elem) returns (total: nat)
      requires e.Array? && Wire(e) && Declared(e) && oneElem == Stride(e) && pos == |a| && |buffer| <= 65535
      requires buffer == Closing(a, e, |a| + Len(e), 0, OpenData(e, |a|))
      modifies this`buffer
      ensures total == SizeOf(e)
      ensures buffer == Closing(a, e, |a| + Len(e), SizeOf(e), OwnData(e, |a|))
    {
      hide Closing, Len, Rec, Wire, Laid, Patch, DecodeHeader, U16, SizeOf, Stride, ReadU16At, EncAll, CompositeData,
           Prod, CStr, LenAll, RecLen;
      ghost var next, first := |a| + Len(e), |a| + RecLen(e);
      ghost var data := CompositeData(e, first, 0, 0, oneElem);
      WireSize(e);
      ReadClosing(a, e, next, 0, OpenData(e, |a|));
      var header := DecodeHeader(buffer, pos);
      var posDataBlock := pos + header.sizeofThisHeader;
      PatchData(a, e, next, 0, OpenData(e, |a|), 5, [oneElem]);
      ArrayStridePatched(e, first, oneElem);
      buffer := Patch(buffer, posDataBlock + 5, [oneElem]);
      ReadClosing(a, e, next, 0, data);
      ArraySize(e);
      total := PrivArrayTotal(posDataBlock, oneElem, e, first);
      PatchSize(a, e, next, 0, data, total);
      buffer := Patch(buffer, pos + 6, U16(total));
      PatchData(a, e, next, SizeOf(e), data, 2, U16(|buffer|));
      ArrayEndPatched(e, first, next, oneElem);
      buffer := Patch(buffer, posDataBlock + 2, U16(|buffer|));
      PrivFlagSimpleArray(posDataBlock, oneElem, a, e);
    }

    method PrivArrayTotal(posDataBlock: nat, oneElem: byte, ghost e: Elem, ghost first: nat) returns (total: nat)
      requires e.Array? && Declared(e) && Has(buffer, posDataBlock, CompositeData(e, first, 0, 0, oneElem))
      ensures total == oneElem * Prod(e.dims)
    {
      hide CompositeData, ReadU16At, Dims, Prod;
      ArrayDataParts(buffer, posDataBlock, e, first, 0, oneElem);
      var dimension := ReadU8At(buffer, posDataBlock + 4);
      DimsAt(buffer, posDataBlock + 6, e.dims, 0);
      total := oneElem * ReadU16At(buffer, posDataBlock + 6);
      ProdOne(e.dims);
      for i := 1 to dimension
        invariant total == oneElem * Prod(e.dims[..i])
      {
        DimsAt(buffer, posDataBlock + 6, e.dims, i);
        ProdAppend(e.dims, i);
        var n := ReadU16At(buffer, posDataBlock + 6 + 2 * i);
        MulAssoc(oneElem, Prod(e.dims[..i]), n);
        total := total * n;
      }
      assert e.dims[..dimension] == e.dims;
    }

    /** An array with one member is marked by the top bit of its dimension. */
    method PrivFlagSimpleArray(posDataBlock: nat, oneElem: byte, ghost a: seq<byte>, ghost e: Elem)
      requires e.Array? && Wire(e) && Declared(e) && oneElem == Stride(e)
      requires posDataBlock == |a| + 12 + |CStr(e.name)| && |buffer| <= 65535
      requires buffer == Closing(a, e, |a| + Len(e), SizeOf(e),
                                 CompositeData(e, |a| + RecLen(e), |a| + Len(e), 0, oneElem))
      modifies this`buffer
      ensures buffer == Closing(a, e, |a| + Len(e), SizeOf(e), OwnData(e, |a|))
    {
      hide Closing, Len, Rec, Wire, Laid, Patch, U16, SizeOf, Stride, ReadU16At, EncAll, CompositeData, CStr, RecLen,
           DecodeHeader, LenAll, Dims;
      ghost var next, first := |a| + Len(e), |a| + RecLen(e);
      ghost var data := CompositeData(e, first, next, 0, oneElem);
      WireSize(e);
      ReadClosing(a, e, next, SizeOf(e), data);
      ReadFirstChild(buffer, posDataBlock, e, first, next, oneElem);
      ArrayFlagPatched(e, first, next, oneElem, |e.kids|);
      var pos := ReadU16At(buffer, posDataBlock);
      var numMembers := PrivCountMembers(pos, e.kids);
      if numMembers == 1 {
        ArrayDataParts(buffer, posDataBlock, e, first, next, oneElem);
        var numDim := ReadU8At(buffer, posDataBlock + 4);
        PatchData(a, e, next, SizeOf(e), data, 4, [numDim + 128]);
        buffer := Patch(buffer, posDataBlock + 4, [numDim + 128]);
      }
    }
  }
}
