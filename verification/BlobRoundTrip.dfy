/** One definition all the way: the calls that build it, every byte they leave, and what the reader answers. */
module BlobRoundTrip {
  import opened Arith
  import opened Options
  import opened Bytes
  import opened BlobTree
  import opened BlobPaths
  import opened BlobWire
  import opened BlobBuilder
  import opened BlobReader
  import DataFormat

  const A: Elem := Simple([97], 0, 0, 71, 4)
  const ITEM: Elem := Simple([], 4, 0, 71, 4)
  const B: Elem := Array([98], 4, 0, [3], [ITEM])

  /** One float `a` and three floats `b`, byte for byte; numbers are big-endian. */
  lemma DefinitionBytes()
    ensures EncDef([A, B]) == MAGIC + [0, 64, 0, 16]
            + [0, 2, 0, 24, 0, 0, 0, 4, 0, 0, 0, 0, 97, 0, 71, 0]
            + [2, 2, 0, 64, 0, 4, 0, 12, 0, 0, 0, 0, 98, 0, 0, 48, 0, 64, 129, 4, 0, 3, 0, 0]
            + [0, 0, 0, 64, 0, 4, 0, 4, 0, 0, 0, 0, 71, 0, 0, 0]
  {
    TotalsAre();
    RecordA();
    ArrayBytes();
    hide EncAll, LenAll, EndOf;
  }

  lemma TotalsAre()
    ensures U16(8 + LenAll([A, B])) == [0, 64] && U16(EndOf([A, B], 0)) == [0, 16]
    ensures EncAll([A, B], 8) == Enc(A, 8) + EncAll([B], 24)
  {
    hide Len, LenAll, Enc, EndOf, LaidAll, Laid, RecLen, Stride, SizeOf, End;
    Lengths();
    Sizes();
    assert [A, B][1..] == [B];
  }

  lemma ArrayBytes()
    ensures EncAll([B], 24)
            == [2, 2, 0, 64, 0, 4, 0, 12, 0, 0, 0, 0, 98, 0, 0, 48, 0, 64, 129, 4, 0, 3, 0, 0]
               + [0, 0, 0, 64, 0, 4, 0, 4, 0, 0, 0, 0, 71, 0, 0, 0]
  {
    Lengths();
    RecordB();
    RecordItem();
    hide Len, LenAll, OwnRec, RecLen;
    EncUnfold(B, 24);
    assert [B][1..] == [] && [ITEM][1..] == [];
    hide Enc;
    assert EncAll([ITEM], 48) == Enc(ITEM, 48) + EncAll([], 64);
    assert EncAll([B], 24) == Enc(B, 24) + EncAll([], 64);
  }

  lemma Lengths()
    ensures RecLen(A) == 16 && Len(A) == 16 && RecLen(ITEM) == 16 && Len(ITEM) == 16
    ensures RecLen(B) == 24 && Len(B) == 40 && LenAll([A, B]) == 56
  {
    assert [A, B][1..] == [B] && [B][1..] == [] && [ITEM][1..] == [];
    assert LenAll([ITEM]) == 16;
    assert LenAll([B]) == 40;
  }

  lemma Sizes()
    ensures SizeOf(A) == 4 && SizeOf(ITEM) == 4 && Stride(B) == 4 && SizeOf(B) == 12 && EndOf([A, B], 0) == 16
    ensures LaidAll([A, B], 0) && Laid(A)
  {
    hide Laid, LaidAll, EndOf, Stride, End, SizeOf;
    SimpleSizes(A);
    SimpleSizes(ITEM);
    SizesOfB();
    TwoOf(A, B);
  }

  lemma SizesOfB()
    ensures Stride(B) == 4 && SizeOf(B) == 12 && Laid(B) && End(B) == 16
  {
    hide Laid, LaidAll, EndOf, Stride, End, SizeOf;
    OneOf(ITEM, 4);
    ArrayOf(B, ITEM);
    OneDim(3);
  }

  lemma OneDim(n: nat)
    ensures Prod([n]) == n
  {
    assert [n][1..] == [];
  }

  lemma SimpleSizes(e: Elem)
    requires e.Simple?
    ensures SizeOf(e) == e.size && End(e) == e.off + e.size && Laid(e)
  {
  }

  lemma OneOf(e: Elem, start: nat)
    requires e.Simple? && start <= e.off
    ensures LaidAll([e], start) && EndOf([e], start) == e.off + e.size
  {
    assert [e][..0] == [] && LaidAll([], start);
  }

  lemma ArrayOf(e: Elem, item: Elem)
    requires e.Array? && e.kids == [item] && item.Simple? && item.off == e.off && 1 <= |e.dims| <= 3
    requires LaidAll(e.kids, e.off) && EndOf(e.kids, e.off) == item.off + item.size
    requires forall k :: 0 <= k < |e.dims| ==> 1 <= e.dims[k]
    ensures Stride(e) == item.size && SizeOf(e) == Prod(e.dims) * item.size && Laid(e) && End(e) == e.off + SizeOf(e)
  {
    hide LaidAll, EndOf, Prod;
  }

  lemma TwoOf(a: Elem, b: Elem)
    requires a.Simple? && a.off == 0 && Laid(b) && End(a) <= b.off
    ensures LaidAll([a, b], 0) && EndOf([a, b], 0) == End(b)
  {
    hide Laid, End;
    OneOf(a, 0);
    SimpleSizes(a);
    assert [a, b][..1] == [a];
  }

  // numbers below 256 have one byte each

  lemma NamedHeader(kind: byte, c: byte, next: nat, off: nat, size: nat)
    requires next < 256 && off < 256 && size < 256
    ensures HeaderBytes(kind, [c], next, off, size, 0) == [kind, 2, 0, next, 0, off, 0, size, 0, 0, 0, 0, c, 0]
  {
  }

  lemma BareHeader(kind: byte, next: nat, off: nat, size: nat)
    requires next < 256 && off < 256 && size < 256
    ensures HeaderBytes(kind, [], next, off, size, 0) == [kind, 0, 0, next, 0, off, 0, size, 0, 0, 0, 0]
  {
  }

  lemma RecordIs(kind: byte, name: seq<byte>, next: nat, off: nat, size: nat, data: seq<byte>,
                 head: seq<byte>, pad: nat)
    requires head == HeaderBytes(kind, name, next, off, size, 0) && pad == PadLen(|head| + |data|)
    ensures Rec(kind, name, next, off, size, 0, data) == head + data + Zeros(pad)
  {
    hide HeaderBytes, PadLen;
  }

  lemma RecordA()
    ensures Enc(A, 8) == [0, 2, 0, 24, 0, 0, 0, 4, 0, 0, 0, 0, 97, 0, 71, 0]
  {
    Lengths();
    Sizes();
    hide Len, LenAll, SizeOf, LaidAll, EndOf, RecLen, Rec, HeaderBytes;
    NamedHeader(0, 97, 24, 0, 4);
    RecordIs(0, [97], 24, 0, 4, [71], [0, 2, 0, 24, 0, 0, 0, 4, 0, 0, 0, 0, 97, 0], 1);
    assert Zeros(1) == [0];
  }

  lemma RecordItem()
    ensures Enc(ITEM, 48) == [0, 0, 0, 64, 0, 4, 0, 4, 0, 0, 0, 0, 71, 0, 0, 0]
  {
    Lengths();
    Sizes();
    hide Len, LenAll, SizeOf, LaidAll, EndOf, RecLen, Rec, HeaderBytes;
    BareHeader(0, 64, 4, 4);
    RecordIs(0, [], 64, 4, 4, [71], [0, 0, 0, 64, 0, 4, 0, 4, 0, 0, 0, 0], 3);
    assert Zeros(3) == [0, 0, 0];
  }

  lemma RecordB()
    ensures OwnRec(B, 24) == [2, 2, 0, 64, 0, 4, 0, 12, 0, 0, 0, 0, 98, 0, 0, 48, 0, 64, 129, 4, 0, 3, 0, 0]
  {
    Lengths();
    Sizes();
    DataB();
    hide Len, LenAll, SizeOf, LaidAll, EndOf, RecLen, Rec, HeaderBytes, Stride, CompositeData;
    NamedHeader(2, 98, 64, 4, 12);
    RecordIs(2, [98], 64, 4, 12, [0, 48, 0, 64, 129, 4, 0, 3],
             [2, 2, 0, 64, 0, 4, 0, 12, 0, 0, 0, 0, 98, 0], 2);
    assert Zeros(2) == [0, 0];
  }

  lemma DataB()
    ensures CompositeData(B, 48, 64, 1, 4) == [0, 48, 0, 64, 129, 4, 0, 3]
  {
    assert Dims([3]) == Dims([]) + U16(3);
  }

  // ---------------------------------------------------------------- built and read

  const OPEN_B: Elem := Array([98], 4, 0, [3], [])

  lemma AtFirst()
    ensures |Built(Root([]))| == 8 && Slots(Root([])) == [] && Cursor(Root([])) == 0
  {
    assert EncAll([], 8) == [] && EndOf([], 0) == 0;
  }

  lemma AfterA()
    ensures Add(Root([]), A) == Root([A]) && |Built(Root([A]))| == 24 && Slots(Root([A])) == []
  {
    Lengths();
    hide Len, Enc;
    assert [] + [A] == [A] && [A][1..] == [];
    assert EncAll([A], 8) == Enc(A, 8) + EncAll([], 24);
  }

  lemma AfterBegin()
    ensures var c := In(Root([A]), OPEN_B);
            Open(c) && |Built(c)| == 48 && |Slots(c)| == 2 && Cursor(c) == 4 && RecLen(OPEN_B) == 24
  {
    AfterA();
    hide Enc;
    assert EncAll([], 48) == [] && EndOf([], 4) == 4;
  }

  lemma AfterItem()
    ensures Add(In(Root([A]), OPEN_B), ITEM) == In(Root([A]), B) && Add(Root([A]), B) == Root([A, B])
  {
    assert [] + [ITEM] == [ITEM] && [A] + [B] == [A, B];
  }

  lemma Made()
    ensures MakeSimple(0, [97], 71, 0, U32MAX) == A && MakeSimple(4, [], 71, 0, U32MAX) == ITEM
    ensures DataFormat.Packed(DataFormat.Array(1, DataFormat.Float32, true, false)) == 71
  {
    DataFormat.Listed();
  }

  /** The calls that make it. The sizes are those of the format, so the array starts at 4. */
  method Described() returns (b: DefBuilder)
    ensures b.buffer == EncDef([A, B]) && WellBuilt([A, B])
  {
    hide Built, Slots, Sound, Cursor, RecLen, Add, EncDef, WellBuilt, Stride, End, MakeSimple;
    hide DataFormat.Packed;
    AtFirst();
    AfterA();
    AfterBegin();
    AfterItem();
    Made();
    Lengths();
    SizesOfB();
    b := new DefBuilder();
    b.Begin();
    b.AddSimpleTypeAtOffset(b.sizeofDataBlob, [97], 71, 0, U32MAX);
    b.ArrayBeginAtOffset(b.sizeofDataBlob, [98], [3], 0);
    b.AddSimpleTypeAtOffset(b.sizeofDataBlob, [], 71, 0, U32MAX);
    b.ArrayEnd();
    var ok := b.End();
  }

  /** The answer of the reader to `b[2]`: past the float and two items. */
  method RoundTrip() returns (blob: seq<byte>, r: Outcome)
    ensures blob == MAGIC + [0, 64, 0, 16]
                    + [0, 2, 0, 24, 0, 0, 0, 4, 0, 0, 0, 0, 97, 0, 71, 0]
                    + [2, 2, 0, 64, 0, 4, 0, 12, 0, 0, 0, 0, 98, 0, 0, 48, 0, 64, 129, 4, 0, 3, 0, 0]
                    + [0, 0, 0, 64, 0, 4, 0, 4, 0, 0, 0, 0, 71, 0, 0, 0]
    ensures r == At(12)
  {
    hide EncDef, WellBuilt, Answer;
    var b := Described();
    DefinitionBytes();
    blob := b.buffer;
    Header();
    var reader := new DefReader();
    var ok := reader.Setup(blob);
    LastItem();
    r := reader.GetOffset([Piece([98], [2])], [A, B]);
  }

  lemma Header()
    requires WellBuilt([A, B])
    ensures var d := EncDef([A, B]); 8 <= |d| && ReadU16At(d, 4) == |d| && d[..4] == MAGIC && d[..|d|] == d
    ensures FullAll([A, B])
  {
    DefHeader([A, B]);
    hide EncDef, WellBuilt;
    assert FullAll([ITEM]);
  }

  lemma LastItem()
    ensures Answer([A, B], [Piece([98], [2])], 0) == At(12)
  {
    SizesOfB();
    var path := [Piece([98], [2])];
    assert FindName([A, B], [98]) == Some(1) by {
      assert [A, B][1..] == [B];
      assert FindName([B], [98]) == Some(0);
    }
    assert [A, B][0].name != [];
    hide Stride;
    assert IndexOffset(B, [2]) == Some(8);
  }
}
