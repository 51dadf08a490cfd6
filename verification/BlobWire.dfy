/** The bytes of a data blob definition: one record per element, each padded to a multiple of
    eight, a composite's members right after its own record. */
module BlobWire {
  import opened Bytes
  import opened BlobTree

  /** GOS_MAGIC__DATA_BLOB_DEF, big endian. */
  const MAGIC: seq<byte> := [0x01, 0xA1, 0x00, 0x00]

  function Kind(e: Elem): byte {
    match e
    case Simple(_, _, _, _, _) => 0
    case Struct(_, _, _, _) => 1
    case Array(_, _, _, _, _) => 2
  }

  /** A nameless element stores no terminator either. */
  function CStr(name: seq<byte>): seq<byte> {
    if name == [] then [] else name + [0]
  }

  function PadLen(n: nat): nat {
    (8 - n % 8) % 8
  }

  /** Header of a record, up to and including the name. */
  function HeaderBytes(kind: byte, name: seq<byte>, next: int, off: int, size: int, user: int): (s: seq<byte>)
    ensures |s| == 12 + |CStr(name)|
  {
    [kind, |CStr(name)| % 256] + U16(next) + U16(off) + U16(size) + U32(user) + CStr(name)
  }

  function Rec(kind: byte, name: seq<byte>, next: int, off: int, size: int, user: int, data: seq<byte>): (s: seq<byte>)
    ensures |s| == 12 + |CStr(name)| + |data| + PadLen(12 + |CStr(name)| + |data|)
    ensures |s| % 8 == 0
  {
    var n := 12 + |CStr(name)| + |data|;
    PadAligns(n);
    HeaderBytes(kind, name, next, off, size, user) + data + Zeros(PadLen(n))
  }

  lemma PadAligns(n: nat)
    ensures (n + PadLen(n)) % 8 == 0
  {
  }

  function Dims(dims: seq<nat>): (s: seq<byte>)
    ensures |s| == 2 * |dims|
  {
    if dims == [] then [] else Dims(dims[..|dims| - 1]) + U16(dims[|dims| - 1])
  }

  function DataLen(e: Elem): nat {
    match e
    case Simple(_, _, _, _, _) => 1
    case Struct(_, _, _, _) => 6
    case Array(_, _, _, dims, _) => 6 + 2 * |dims|
  }

  function RecLen(e: Elem): (n: nat)
    ensures n % 8 == 0 && 12 <= n
  {
    var n := 12 + |CStr(e.name)| + DataLen(e);
    n + PadLen(n)
  }

  function Len(e: Elem): (n: nat)
    ensures RecLen(e) <= n
    decreases e, 1
  {
    match e
    case Simple(_, _, _, _, _) => RecLen(e)
    case Struct(_, _, _, kids) => RecLen(e) + LenAll(kids)
    case Array(_, _, _, _, kids) => RecLen(e) + LenAll(kids)
  }

  function LenAll(kids: seq<Elem>): nat
    decreases kids, 0
  {
    if kids == [] then 0 else Len(kids[0]) + LenAll(kids[1..])
  }

  lemma LenAllPositive(kids: seq<Elem>)
    ensures kids != [] ==> 12 <= LenAll(kids)
  {
  }

  lemma LenAllNil()
    ensures LenAll([]) == 0
  {
  }

  lemma AddAligned(a: nat, b: nat)
    requires a % 8 == 0 && b % 8 == 0
    ensures (a + b) % 8 == 0
  {
  }

  lemma {:induction false} LenAligned(e: Elem)
    ensures Len(e) % 8 == 0
    decreases e, 1
  {
    if !e.Simple? {
      LenAllAligned(e.kids);
      AddAligned(RecLen(e), LenAll(e.kids));
    }
  }

  lemma {:induction false} LenAllAligned(kids: seq<Elem>)
    ensures LenAll(kids) % 8 == 0
    decreases kids, 0
  {
    if kids != [] {
      LenAligned(kids[0]);
      LenAllAligned(kids[1..]);
      AddAligned(Len(kids[0]), LenAll(kids[1..]));
    }
  }

  /** The part of a record that depends on the kind of element. `first` and `end` are the
      positions of the first member and of the byte after the last one. */
  function CompositeData(e: Elem, first: int, end: int, members: int, stride: int): (s: seq<byte>)
    requires !e.Simple?
    ensures |s| == DataLen(e)
  {
    match e
    case Struct(_, _, _, _) => U16(first) + U16(end) + [members % 256, 0]
    case Array(_, _, _, dims, _) =>
      U16(first) + U16(end)
      + [(|dims| + if members % 256 == 1 then 128 else 0) % 256, stride % 256] + Dims(dims)
  }

  function OwnRec(e: Elem, pos: nat): (s: seq<byte>)
    ensures |s| == RecLen(e)
  {
    Rec(Kind(e), e.name, pos + Len(e), e.off, SizeOf(e), e.user, OwnData(e, pos))
  }

  function OwnData(e: Elem, pos: nat): (s: seq<byte>)
    ensures |s| == DataLen(e)
  {
    match e
    case Simple(_, _, _, fmt, _) => [fmt]
    case Struct(_, _, _, kids) => CompositeData(e, pos + RecLen(e), pos + Len(e), |kids|, 0)
    case Array(_, _, _, _, kids) => CompositeData(e, pos + RecLen(e), pos + Len(e), |kids|, Stride(e))
  }

  function Enc(e: Elem, pos: nat): (s: seq<byte>)
    ensures |s| == Len(e)
    decreases e, 1
  {
    match e
    case Simple(_, _, _, _, _) => OwnRec(e, pos)
    case Struct(_, _, _, kids) => OwnRec(e, pos) + EncAll(kids, pos + RecLen(e))
    case Array(_, _, _, _, kids) => OwnRec(e, pos) + EncAll(kids, pos + RecLen(e))
  }

  function EncAll(kids: seq<Elem>, pos: nat): (s: seq<byte>)
    ensures |s| == LenAll(kids)
    decreases kids, 0
  {
    if kids == [] then [] else Enc(kids[0], pos) + EncAll(kids[1..], pos + Len(kids[0]))
  }

  lemma {:induction false} LenAllAppend(kids: seq<Elem>, e: Elem)
    ensures LenAll(kids + [e]) == LenAll(kids) + Len(e)
    decreases |kids|
  {
    var all := kids + [e];
    if kids == [] {
      assert all == [e] && LenAll(all[1..]) == 0;
    } else {
      assert all[1..] == kids[1..] + [e];
      LenAllAppend(kids[1..], e);
    }
  }

  lemma EncAllCons(kids: seq<Elem>, pos: nat)
    requires kids != []
    ensures EncAll(kids, pos) == Enc(kids[0], pos) + EncAll(kids[1..], pos + Len(kids[0]))
  {
    hide Enc, Len, LenAll;
  }

  lemma LenAllCons(kids: seq<Elem>)
    requires kids != []
    ensures LenAll(kids) == Len(kids[0]) + LenAll(kids[1..])
  {
  }

  lemma EncNothing(pos: nat)
    ensures EncAll([], pos) == [] && LenAll([]) == 0
  {
  }

  lemma EncAllOne(e: Elem, pos: nat)
    ensures EncAll([e], pos) == Enc(e, pos)
  {
    assert [e][1..] == [];
    assert EncAll([e], pos) == Enc(e, pos) + [];
  }

  lemma TailOfAppend(kids: seq<Elem>, e: Elem)
    requires kids != []
    ensures (kids + [e])[0] == kids[0] && (kids + [e])[1..] == kids[1..] + [e]
  {
  }

  lemma {:induction false} EncAllAppend(kids: seq<Elem>, e: Elem, pos: nat)
    ensures EncAll(kids + [e], pos) == EncAll(kids, pos) + Enc(e, pos + LenAll(kids))
    decreases |kids|
  {
    hide Enc, Len, EncAll, LenAll;
    if kids == [] {
      EncNothing(pos);
      EncAllOne(e, pos);
      assert kids + [e] == [e];
    } else {
      var pos' := pos + Len(kids[0]);
      EncAllAppend(kids[1..], e, pos');
      TailOfAppend(kids, e);
      EncAllCons(kids + [e], pos);
      EncAllCons(kids, pos);
      LenAllCons(kids);
      AssocOf(EncAll(kids + [e], pos), Enc(kids[0], pos), EncAll(kids[1..], pos'), Enc(e, pos + LenAll(kids)));
    }
  }

  /** The whole definition: magic, its own size, the size of the blob, the elements. */
  function EncDef(roots: seq<Elem>): seq<byte> {
    MAGIC + U16(8 + LenAll(roots)) + U16(EndOf(roots, 0)) + EncAll(roots, 8)
  }

  /** What the fields of a record have room for. Names are cut at 243 characters by the window
      through which headers are decoded. */
  ghost predicate Wire(e: Elem)
    decreases e, 1
  {
    && |e.name| <= 243 && e.off <= 65535 && 0 <= SizeOf(e) <= 65535 && e.user < 0x1_0000_0000
    && (!e.Simple? ==> WireAll(e.kids))
    && (e.Array? ==> |e.dims| <= 3 && forall k :: 0 <= k < |e.dims| ==> e.dims[k] <= 65535)
    && (e.Array? ==> 0 <= Stride(e) <= 255)
  }

  ghost predicate WireAll(kids: seq<Elem>)
    decreases kids, 0
  {
    forall i :: 0 <= i < |kids| ==> Wire(kids[i])
  }

  /** A description that was accepted and fits the format. */
  ghost predicate WellBuilt(roots: seq<Elem>) {
    LaidAll(roots, 0) && WireAll(roots) && EndOf(roots, 0) <= 65535 && 8 + LenAll(roots) <= 65535
  }

  // ---------------------------------------------------------------- patching a record

  lemma RecPatchNext(kind: byte, name: seq<byte>, next: int, off: int, size: int, user: int, data: seq<byte>, v: int)
    ensures Patch(Rec(kind, name, next, off, size, user, data), 2, U16(v))
            == Rec(kind, name, v, off, size, user, data)
  {
  }

  lemma RecPatchSize(kind: byte, name: seq<byte>, next: int, off: int, size: int, user: int, data: seq<byte>, v: int)
    ensures Patch(Rec(kind, name, next, off, size, user, data), 6, U16(v))
            == Rec(kind, name, next, off, v, user, data)
  {
  }

  lemma RecPatchData(kind: byte, name: seq<byte>, next: int, off: int, size: int, user: int, data: seq<byte>,
                     at: nat, v: seq<byte>)
    requires at + |v| <= |data|
    ensures Patch(Rec(kind, name, next, off, size, user, data), 12 + |CStr(name)| + at, v)
            == Rec(kind, name, next, off, size, user, Patch(data, at, v))
  {
    PatchMiddle(HeaderBytes(kind, name, next, off, size, user), data,
                Zeros(PadLen(12 + |CStr(name)| + |data|)), 12 + |CStr(name)| + at, v);
  }

  /** The same three, on a record in the middle of a buffer. */
  lemma PatchNextIn(a: seq<byte>, c: seq<byte>, kind: byte, name: seq<byte>, next: int, off: int, size: int,
                    user: int, data: seq<byte>, v: int)
    ensures Patch(a + Rec(kind, name, next, off, size, user, data) + c, |a| + 2, U16(v))
            == a + Rec(kind, name, v, off, size, user, data) + c
  {
    RecPatchNext(kind, name, next, off, size, user, data, v);
    PatchMiddle(a, Rec(kind, name, next, off, size, user, data), c, |a| + 2, U16(v));
  }

  lemma PatchSizeIn(a: seq<byte>, c: seq<byte>, kind: byte, name: seq<byte>, next: int, off: int, size: int,
                    user: int, data: seq<byte>, v: int)
    ensures Patch(a + Rec(kind, name, next, off, size, user, data) + c, |a| + 6, U16(v))
            == a + Rec(kind, name, next, off, v, user, data) + c
  {
    RecPatchSize(kind, name, next, off, size, user, data, v);
    PatchMiddle(a, Rec(kind, name, next, off, size, user, data), c, |a| + 6, U16(v));
  }

  lemma PatchDataIn(a: seq<byte>, c: seq<byte>, kind: byte, name: seq<byte>, next: int, off: int, size: int,
                    user: int, data: seq<byte>, at: nat, v: seq<byte>)
    requires at + |v| <= |data|
    ensures Patch(a + Rec(kind, name, next, off, size, user, data) + c, |a| + 12 + |CStr(name)| + at, v)
            == a + Rec(kind, name, next, off, size, user, Patch(data, at, v)) + c
  {
    RecPatchData(kind, name, next, off, size, user, data, at, v);
    PatchMiddle(a, Rec(kind, name, next, off, size, user, data), c, |a| + 12 + |CStr(name)| + at, v);
  }

  // ---------------------------------------------------------------- decoding

  datatype Header = Header(elemType: byte, nameLen: byte, next: nat, absOffset: nat, paddedSize: nat,
                           userDefined: nat, sizeofThisHeader: nat, name: seq<byte>)

  /** Headers are decoded through a window of 256 bytes, where the cursor stops at the end. */
  function DecodeHeader(buf: seq<byte>, pos: nat): Header
    requires pos + 12 <= |buf| && pos + 12 + buf[pos + 1] <= |buf|
  {
    var nameLen := buf[pos + 1];
    Header(buf[pos], nameLen, ReadU16At(buf, pos + 2), ReadU16At(buf, pos + 4), ReadU16At(buf, pos + 6),
           ReadU32At(buf, pos + 8), if 12 + nameLen as int <= 256 then 12 + nameLen as int else 256,
           if nameLen == 0 then [] else buf[pos + 12..pos + 12 + nameLen - 1])
  }

  function HeaderOf(e: Elem, pos: nat): Header {
    Header(Kind(e), |CStr(e.name)| % 256, pos + Len(e), e.off, if SizeOf(e) < 0 then 0 else SizeOf(e),
           e.user, 12 + |CStr(e.name)|, e.name)
  }

  lemma HeaderParts(buf: seq<byte>, pos: nat, kind: byte, name: seq<byte>, next: nat, off: nat, size: nat, user: nat)
    requires Has(buf, pos, HeaderBytes(kind, name, next, off, size, user))
    ensures Has(buf, pos, [kind, |CStr(name)| % 256])
    ensures Has(buf, pos + 2, U16(next)) && Has(buf, pos + 4, U16(off)) && Has(buf, pos + 6, U16(size))
    ensures Has(buf, pos + 8, U32(user)) && Has(buf, pos + 12, CStr(name))
  {
    hide U16, U32, CStr;
    var a := [kind, |CStr(name)| % 256];
    var b := a + U16(next);
    var c := b + U16(off);
    var d := c + U16(size);
    var f := d + U32(user);
    HasSplit(buf, pos, f, CStr(name));
    HasSplit(buf, pos, d, U32(user));
    HasSplit(buf, pos, c, U16(size));
    HasSplit(buf, pos, b, U16(off));
    HasSplit(buf, pos, a, U16(next));
  }

  lemma NameAt(buf: seq<byte>, pos: nat, name: seq<byte>)
    requires Has(buf, pos, CStr(name)) && name != []
    ensures pos + |name| < |buf| && buf[pos..pos + |name|] == name
  {
    HasSplit(buf, pos, name, [0]);
    HasSlice(buf, pos, name);
  }

  lemma DecodesHeader(buf: seq<byte>, pos: nat, kind: byte, name: seq<byte>, next: nat, off: nat, size: nat, user: nat)
    requires Has(buf, pos, HeaderBytes(kind, name, next, off, size, user))
    requires |name| <= 243 && next <= 65535 && off <= 65535 && size <= 65535 && user < 0x1_0000_0000
    ensures pos + 12 <= |buf| && pos + 12 + buf[pos + 1] <= |buf|
    ensures DecodeHeader(buf, pos)
            == Header(kind, |CStr(name)|, next, off, size, user, 12 + |CStr(name)|, name)
  {
    hide HeaderBytes, U16, U32, ReadU16At, ReadU32At;
    HeaderParts(buf, pos, kind, name, next, off, size, user);
    HasU16(buf, pos + 2, next);
    HasU16(buf, pos + 4, off);
    HasU16(buf, pos + 6, size);
    HasU32(buf, pos + 8, user);
    HasAt(buf, pos, [kind, |CStr(name)| % 256], 0);
    HasAt(buf, pos, [kind, |CStr(name)| % 256], 1);
    if name != [] {
      NameAt(buf, pos + 12, name);
    }
  }

  /** Reading back the header of a record. */
  lemma DecodesRec(buf: seq<byte>, pos: nat, kind: byte, name: seq<byte>, next: nat, off: nat, size: nat, user: nat,
                   data: seq<byte>)
    requires Has(buf, pos, Rec(kind, name, next, off, size, user, data))
    requires |name| <= 243 && next <= 65535 && off <= 65535 && size <= 65535 && user < 0x1_0000_0000
    ensures pos + 12 <= |buf| && pos + 12 + buf[pos + 1] <= |buf|
    ensures DecodeHeader(buf, pos)
            == Header(kind, |CStr(name)|, next, off, size, user, 12 + |CStr(name)|, name)
    ensures Has(buf, pos + 12 + |CStr(name)|, data)
  {
    hide HeaderBytes, PadLen, DecodeHeader;
    var h := HeaderBytes(kind, name, next, off, size, user);
    HasSplit(buf, pos, h + data, Zeros(PadLen(12 + |CStr(name)| + |data|)));
    HasSplit(buf, pos, h, data);
    DecodesHeader(buf, pos, kind, name, next, off, size, user);
  }

  lemma EncUnfold(e: Elem, pos: nat)
    requires !e.Simple?
    ensures Enc(e, pos) == OwnRec(e, pos) + EncAll(e.kids, pos + RecLen(e))
  {
    hide OwnRec;
  }

  /** Where the record and the members of an element are. */
  lemma EncParts(buf: seq<byte>, pos: nat, e: Elem)
    requires Has(buf, pos, Enc(e, pos))
    ensures Has(buf, pos, OwnRec(e, pos))
    ensures !e.Simple? ==> Has(buf, pos + RecLen(e), EncAll(e.kids, pos + RecLen(e)))
  {
    if !e.Simple? {
      EncUnfold(e, pos);
      HasSplit(buf, pos, OwnRec(e, pos), EncAll(e.kids, pos + RecLen(e)));
    }
  }

  /** First of a run of siblings, and the rest of the run. */
  lemma RunHead(buf: seq<byte>, pos: nat, kids: seq<Elem>)
    requires Has(buf, pos, EncAll(kids, pos)) && kids != []
    ensures Has(buf, pos, Enc(kids[0], pos))
    ensures Has(buf, pos + Len(kids[0]), EncAll(kids[1..], pos + Len(kids[0])))
  {
    var head, rest := Enc(kids[0], pos), EncAll(kids[1..], pos + Len(kids[0]));
    assert EncAll(kids, pos) == head + rest;
    HasSplit(buf, pos, head, rest);
  }

  lemma HeaderFields(e: Elem)
    requires Wire(e)
    ensures |e.name| <= 243 && |CStr(e.name)| <= 244 && e.off <= 65535 && 0 <= SizeOf(e) <= 65535
    ensures e.user < 0x1_0000_0000
  {
    hide SizeOf;
  }

  lemma HeaderOfWire(e: Elem, pos: nat)
    requires Wire(e)
    ensures SizeOf(e) >= 0
    ensures HeaderOf(e, pos)
            == Header(Kind(e), |CStr(e.name)|, pos + Len(e), e.off, SizeOf(e), e.user, 12 + |CStr(e.name)|, e.name)
  {
    HeaderFields(e);
    hide Wire, CStr, Kind, SizeOf, Len;
  }

  lemma DecodesOwn(buf: seq<byte>, pos: nat, e: Elem, next: nat, data: seq<byte>)
    requires Has(buf, pos, Rec(Kind(e), e.name, next, e.off, SizeOf(e), e.user, data)) && Wire(e) && next <= 65535
    ensures pos + 12 <= |buf| && pos + 12 + buf[pos + 1] <= |buf|
    ensures DecodeHeader(buf, pos)
            == Header(Kind(e), |CStr(e.name)|, next, e.off, SizeOf(e), e.user, 12 + |CStr(e.name)|, e.name)
    ensures Has(buf, pos + 12 + |CStr(e.name)|, data)
  {
    HeaderFields(e);
    hide Wire, CStr, Has, DecodeHeader, SizeOf, Rec, Kind;
    DecodesRec(buf, pos, Kind(e), e.name, next, e.off, SizeOf(e), e.user, data);
  }

  lemma OwnHeader(buf: seq<byte>, pos: nat, e: Elem)
    requires Has(buf, pos, OwnRec(e, pos)) && Wire(e) && pos + Len(e) <= 65535
    ensures pos + 12 <= |buf| && pos + 12 + buf[pos + 1] <= |buf|
    ensures DecodeHeader(buf, pos) == HeaderOf(e, pos)
    ensures Has(buf, pos + 12 + |CStr(e.name)|, OwnData(e, pos))
  {
    hide HeaderOf, PadLen, RecLen, DataLen, Len, Wire, CStr, Has, DecodeHeader, OwnData, SizeOf, Rec, Kind;
    HeaderOfWire(e, pos);
    DecodesOwn(buf, pos, e, pos + Len(e), OwnData(e, pos));
  }

  lemma RunHeader(buf: seq<byte>, pos: nat, kids: seq<Elem>)
    requires Has(buf, pos, EncAll(kids, pos)) && kids != [] && WireAll(kids)
    requires pos + LenAll(kids) <= 65535
    ensures pos + 12 <= |buf| && pos + 12 + buf[pos + 1] <= |buf|
    ensures DecodeHeader(buf, pos) == HeaderOf(kids[0], pos)
    ensures Has(buf, pos, Enc(kids[0], pos))
    ensures Has(buf, pos + Len(kids[0]), EncAll(kids[1..], pos + Len(kids[0])))
    ensures LenAll(kids) == Len(kids[0]) + LenAll(kids[1..]) && 12 <= Len(kids[0]) && WireAll(kids[1..])
  {
    hide Enc, EncAll, DecodeHeader, HeaderOf, OwnRec, OwnData, Wire;
    RunHead(buf, pos, kids);
    EncParts(buf, pos, kids[0]);
    OwnHeader(buf, pos, kids[0]);
  }

  lemma {:induction false} DimsAt(buf: seq<byte>, pos: nat, dims: seq<nat>, i: nat)
    requires Has(buf, pos, Dims(dims)) && i < |dims| && dims[i] <= 65535
    ensures ReadU16At(buf, pos + 2 * i) == dims[i]
    decreases |dims|
  {
    var n := |dims| - 1;
    HasSplit(buf, pos, Dims(dims[..n]), U16(dims[n]));
    if i < n {
      DimsAt(buf, pos, dims[..n], i);
    } else {
      HasU16(buf, pos + 2 * n, dims[n]);
    }
  }
}
