/** DefElem and DefReader: walking the bytes of a finished definition and turning an access
    path into an offset. */
module BlobReader {
  import opened Arith
  import opened Options
  import opened Bytes
  import opened BlobTree
  import opened BlobPaths
  import opened BlobWire

  /** Every composite has a member, as the reader takes for granted. */
  ghost predicate Full(e: Elem)
    decreases e, 1
  {
    !e.Simple? ==> e.kids != [] && FullAll(e.kids)
  }

  ghost predicate FullAll(kids: seq<Elem>)
    decreases kids, 0
  {
    forall i :: 0 <= i < |kids| ==> Full(kids[i])
  }

  // ---------------------------------------------------------------- the data block of a record

  lemma ReadPositions(buf: seq<byte>, pos: nat, e: Elem, first: nat, end: nat, members: int, stride: int)
    requires !e.Simple? && first <= 65535 && end <= 65535
    requires Has(buf, pos, CompositeData(e, first, end, members, stride))
    ensures ReadU16At(buf, pos) == first && ReadU16At(buf, pos + 2) == end
  {
    hide ReadU16At, Dims;
    var d := CompositeData(e, first, end, members, stride);
    var rest := d[4..];
    assert d == U16(first) + U16(end) + rest;
    HasSplit(buf, pos, U16(first) + U16(end), rest);
    HasSplit(buf, pos, U16(first), U16(end));
    HasU16(buf, pos, first);
    HasU16(buf, pos + 2, end);
  }

  lemma ReadArrayData(buf: seq<byte>, pos: nat, e: Elem, first: int, end: int, members: int, stride: byte)
    requires e.Array? && |e.dims| < 128
    requires Has(buf, pos, CompositeData(e, first, end, members, stride))
    ensures ReadU8At(buf, pos + 4) == |e.dims| + if members % 256 == 1 then 128 else 0
    ensures ReadU8At(buf, pos + 5) == stride
    ensures Has(buf, pos + 6, Dims(e.dims))
  {
    hide Dims;
    var head := U16(first) + U16(end) + [(|e.dims| + if members % 256 == 1 then 128 else 0) % 256, stride];
    HasSplit(buf, pos, head, Dims(e.dims));
    assert buf[pos + 4] == head[4] && buf[pos + 5] == head[5];
  }

  lemma ReadStructData(buf: seq<byte>, pos: nat, e: Elem, first: int, end: int, members: nat)
    requires e.Struct? && Has(buf, pos, CompositeData(e, first, end, members, 0))
    ensures ReadU8At(buf, pos + 4) == members % 256
  {
    var d := CompositeData(e, first, end, members, 0);
    assert buf[pos + 4] == d[4];
  }

  // ---------------------------------------------------------------- what a walk sees

  /** Everything the accessors of an element report, and the same for its members. */
  datatype Seen = Seen(kind: byte, name: seq<byte>, off: nat, size: nat, user: nat, fmt: byte,
                       dims: seq<nat>, simpleArray: bool, stride: byte, numMembers: byte, kids: seq<Seen>)

  /** eDataFormat::_unknown */
  const UNKNOWN_FORMAT: byte := 0x1F

  ghost function View(e: Elem): Seen
    requires Wire(e)
    decreases e, 1
  {
    match e
    case Simple(name, off, user, fmt, size) => Seen(0, name, off, size, user, fmt, [], false, 0, 0, [])
    case Struct(name, off, user, kids) =>
      Seen(1, name, off, SizeOf(e), user, UNKNOWN_FORMAT, [], false, 0, |kids| % 256, ViewAll(kids))
    case Array(name, off, user, dims, kids) =>
      Seen(2, name, off, SizeOf(e), user, UNKNOWN_FORMAT, dims, |kids| % 256 == 1, Stride(e), 0, ViewAll(kids))
  }

  ghost function ViewAll(kids: seq<Elem>): (vs: seq<Seen>)
    requires WireAll(kids)
    ensures |vs| == |kids|
    decreases kids, 0
  {
    if kids == [] then [] else [View(kids[0])] + ViewAll(kids[1..])
  }

  // ---------------------------------------------------------------- the cursor

  class DefElem {
    var reader: seq<byte>
    var header: Header
    var posCurElem: nat
    var endingPos: nat

    /** The cursor is on the first element of `rest`, the others being its next siblings. */
    ghost predicate At(rest: seq<Elem>)
      reads this
    {
      && rest != [] && WireAll(rest) && FullAll(rest)
      && endingPos <= 65535 && endingPos == posCurElem + LenAll(rest) && posCurElem % 8 == 0
      && Has(reader, posCurElem, EncAll(rest, posCurElem))
      && header == HeaderOf(rest[0], posCurElem)
    }

    constructor () {
      reader, posCurElem, endingPos := [], 0, 0;
      header := Header(0, 0, 0, 0, 0, 0, 0, []);
    }

    method PrivSetup(buf: seq<byte>, startingPos: nat, endingPosIN: nat, ghost rest: seq<Elem>)
      requires rest != [] && WireAll(rest) && FullAll(rest) && startingPos % 8 == 0
      requires endingPosIN == startingPos + LenAll(rest) <= 65535
      requires Has(buf, startingPos, EncAll(rest, startingPos))
      modifies this
      ensures At(rest) && reader == buf && posCurElem == startingPos && endingPos == endingPosIN
    {
      hide EncAll, DecodeHeader, HeaderOf, LenAll, WireAll, FullAll;
      RunHeader(buf, startingPos, rest);
      reader := buf;
      header := DecodeHeader(buf, startingPos);
      posCurElem := startingPos;
      endingPos := endingPosIN;
    }

    /** Moves to the next sibling; on the last one nothing changes. */
    method Next(ghost rest: seq<Elem>) returns (ok: bool)
      requires At(rest)
      modifies this
      ensures ok == (1 < |rest|) && reader == old(reader) && endingPos == old(endingPos)
      ensures if ok then At(rest[1..]) else unchanged(this)
    {
      hide Enc, EncAll, DecodeHeader, WireAll, Len, LenAll, Full;
      RunHeader(reader, posCurElem, rest);
      LenAllPositive(rest[1..]);
      LenAllNil();
      LenAligned(rest[0]);
      AddAligned(posCurElem, Len(rest[0]));
      var next := header.next;
      if next >= endingPos {
        return false;
      }
      RunHeader(reader, next, rest[1..]);
      posCurElem := next;
      header := DecodeHeader(reader, posCurElem);
      ok := true;
    }

    /** Where the members of the current element are. */
    lemma MembersAt(rest: seq<Elem>)
      requires At(rest) && !rest[0].Simple?
      ensures var e, block, first := rest[0], posCurElem + header.sizeofThisHeader, posCurElem + RecLen(rest[0]);
              && ReadU16At(reader, block) == first && ReadU16At(reader, block + 2) == first + LenAll(e.kids) <= 65535
              && Has(reader, first, EncAll(e.kids, first)) && first % 8 == 0
              && e.kids != [] && WireAll(e.kids) && FullAll(e.kids)
    {
      hide Enc, EncAll, Rec, OwnRec, ReadU16At, CompositeData, CStr, DecodeHeader;
      var e, pos := rest[0], posCurElem;
      OwnDataAt(rest);
      RunHead(reader, pos, rest);
      EncParts(reader, pos, e);
      AddAligned(pos, RecLen(e));
      ReadPositions(reader, pos + header.sizeofThisHeader, e, pos + RecLen(e), pos + Len(e), |e.kids|,
                    if e.Array? then Stride(e) else 0);
    }

    lemma OwnDataAt(rest: seq<Elem>)
      requires At(rest)
      ensures header.sizeofThisHeader == 12 + |CStr(rest[0].name)|
      ensures Has(reader, posCurElem + header.sizeofThisHeader, OwnData(rest[0], posCurElem))
      ensures posCurElem + Len(rest[0]) <= endingPos && Wire(rest[0]) && Full(rest[0])
    {
      hide Enc, EncAll, OwnRec, OwnData, DecodeHeader, Len, CStr;
      RunHeader(reader, posCurElem, rest);
      EncParts(reader, posCurElem, rest[0]);
      OwnHeader(reader, posCurElem, rest[0]);
    }

    /** Moves to the first member; on a simple element nothing changes. */
    method FirstChild(ghost rest: seq<Elem>) returns (ok: bool)
      requires At(rest)
      modifies this
      ensures ok == !rest[0].Simple? && reader == old(reader)
      ensures if ok then At(rest[0].kids) else unchanged(this)
    {
      hide Enc, EncAll, Len, LenAll, WireAll, FullAll, ReadU16At;
      if header.elemType == 0 {
        return false;
      }
      MembersAt(rest);
      var posFirstChild := ReadU16At(reader, posCurElem + header.sizeofThisHeader);
      var endPosOfLastChild := ReadU16At(reader, posCurElem + header.sizeofThisHeader + 2);
      PrivSetup(reader, posFirstChild, endPosOfLastChild, rest[0].kids);
      ok := true;
    }

    method GetFirstChild(out: DefElem, ghost rest: seq<Elem>) returns (ok: bool)
      requires At(rest) && out != this
      modifies out
      ensures ok == !rest[0].Simple?
      ensures ok ==> out.At(rest[0].kids) && out.reader == reader
    {
      hide Enc, EncAll, Len, LenAll, WireAll, FullAll, ReadU16At;
      if header.elemType == 0 {
        return false;
      }
      MembersAt(rest);
      var posFirstChild := ReadU16At(reader, posCurElem + header.sizeofThisHeader);
      var endPosOfLastChild := ReadU16At(reader, posCurElem + header.sizeofThisHeader + 2);
      out.PrivSetup(reader, posFirstChild, endPosOfLastChild, rest[0].kids);
      ok := true;
    }

    function GetDataFmt(): byte
      reads this
    {
      if header.elemType == 0 then ReadU8At(reader, posCurElem + header.sizeofThisHeader) else UNKNOWN_FORMAT
    }

    function StructTypeGetNumMembers(): byte
      reads this
    {
      ReadU8At(reader, posCurElem + header.sizeofThisHeader + 4)
    }

    function ArrayTypeGetNumDimension(): nat
      reads this
    {
      ReadU8At(reader, posCurElem + header.sizeofThisHeader + 4) % 128
    }

    predicate ArrayTypeIsSimple()
      reads this
    {
      ReadU8At(reader, posCurElem + header.sizeofThisHeader + 4) >= 128
    }

    function ArrayTypeGetNumElem(index: nat): nat
      reads this
    {
      ReadU16At(reader, posCurElem + header.sizeofThisHeader + 6 + index * 2)
    }

    function ArrayTypeGetStride(): byte
      reads this
    {
      ReadU8At(reader, posCurElem + header.sizeofThisHeader + 5)
    }

    /** The accessors report what the builder was told. */
    lemma AccessorsAgree(rest: seq<Elem>)
      requires At(rest)
      ensures header.elemType == Kind(rest[0]) && header.name == rest[0].name
      ensures header.absOffset == rest[0].off && header.userDefined == rest[0].user
      ensures Wire(rest[0]) && header.paddedSize == SizeOf(rest[0])
      ensures GetDataFmt() == if rest[0].Simple? then rest[0].fmt else UNKNOWN_FORMAT
      ensures rest[0].Struct? ==> StructTypeGetNumMembers() == |rest[0].kids| % 256
    {
      hide Enc, EncAll, Len, LenAll, RecLen, SizeOf;
      OwnDataAt(rest);
      var e, block := rest[0], posCurElem + header.sizeofThisHeader;
      WireField(e);
      if e.Simple? {
        HasAt(reader, block, [e.fmt], 0);
      } else if e.Struct? {
        ReadStructData(reader, block, e, posCurElem + RecLen(e), posCurElem + Len(e), |e.kids|);
      }
    }

    lemma ArrayAccessorsAgree(rest: seq<Elem>)
      requires At(rest) && rest[0].Array?
      ensures Wire(rest[0]) && ArrayTypeGetNumDimension() == |rest[0].dims|
      ensures ArrayTypeIsSimple() == (|rest[0].kids| % 256 == 1)
      ensures ArrayTypeGetStride() == Stride(rest[0])
      ensures forall k :: 0 <= k < |rest[0].dims| ==> ArrayTypeGetNumElem(k) == rest[0].dims[k]
    {
      hide Enc, EncAll, Len, LenAll, RecLen, SizeOf, Stride, CompositeData, ReadU16At;
      OwnDataAt(rest);
      var e, block := rest[0], posCurElem + header.sizeofThisHeader;
      WireField(e);
      ReadArrayData(reader, block, e, posCurElem + RecLen(e), posCurElem + Len(e), |e.kids|, Stride(e));
      forall k | 0 <= k < |e.dims|
        ensures ArrayTypeGetNumElem(k) == e.dims[k]
      {
        DimsAt(reader, block + 6, e.dims, k);
      }
    }
  }

  lemma WireField(e: Elem)
    requires Wire(e)
    ensures 0 <= SizeOf(e) && (e.Array? ==> 0 <= Stride(e) <= 255 && |e.dims| <= 3)
    ensures e.Array? ==> forall k :: 0 <= k < |e.dims| ==> e.dims[k] <= 65535
    ensures !e.Simple? ==> WireAll(e.kids)
  {
  }

  // ---------------------------------------------------------------- the search, element by element

  /** A sibling with another name is skipped. */
  lemma AnswerSkip(sibs: seq<Elem>, path: seq<Piece>, acc: nat)
    requires sibs != [] && path != [] && sibs[0].name != path[0].name && sibs[0].name != []
    ensures Answer(sibs, path, acc) == Answer(sibs[1..], path, acc)
  {
    LookupSkip(sibs, path, acc);
    UnnamedSkip(sibs, path);
    hide Lookup, MeetsUnnamed;
  }

  lemma LookupSkip(sibs: seq<Elem>, path: seq<Piece>, acc: nat)
    requires sibs != [] && path != [] && sibs[0].name != path[0].name
    ensures Lookup(sibs, path, acc) == Lookup(sibs[1..], path, acc)
  {
    match FindName(sibs[1..], path[0].name)
    case None =>
    case Some(i) => assert sibs[1..][i..] == sibs[i + 1..];
  }

  lemma {:induction false} UnnamedSkip(sibs: seq<Elem>, path: seq<Piece>)
    requires sibs != [] && path != [] && sibs[0].name != path[0].name && sibs[0].name != []
    ensures MeetsUnnamed(sibs, path) == MeetsUnnamed(sibs[1..], path)
  {
    var later := sibs[1..];
    var found := FindName(later, path[0].name);
    UnnamedBefore(sibs, if found.Some? then found.value else |later|);
    if found.Some? {
      assert later[found.value..] == sibs[found.value + 1..];
    }
  }

  lemma UnnamedBefore(sibs: seq<Elem>, n: nat)
    requires sibs != [] && n < |sibs| && sibs[0].name != []
    ensures (exists j :: 0 <= j < n + 1 && sibs[j].name == []) <==> exists j :: 0 <= j < n && sibs[1..][j].name == []
  {
    if j :| 0 <= j < n + 1 && sibs[j].name == [] {
      assert sibs[1..][j - 1].name == [];
    }
  }

  lemma AnswerUnnamed(sibs: seq<Elem>, path: seq<Piece>, acc: nat)
    requires sibs != [] && path != [] && Acceptable(path[0]) && sibs[0].name == []
    ensures Answer(sibs, path, acc) == NullName
  {
  }

  lemma AnswerHere(sibs: seq<Elem>, path: seq<Piece>, acc: nat)
    requires sibs != [] && path != [] && sibs[0].name == path[0].name && Acceptable(path[0])
    ensures Answer(sibs, path, acc) ==
      match IndexOffset(sibs[0], path[0].idx)
      case None => Refused
      case Some(o) =>
        if |path| == 1 then At((sibs[0].off + (acc + o) % 65536) % 65536)
        else Answer(if sibs[0].Simple? then sibs else sibs[0].kids, path[1..], (acc + o) % 65536)
  {
    assert sibs[0..] == sibs;
  }

  lemma AnswerNone(path: seq<Piece>, acc: nat)
    ensures Answer([], path, acc) == Refused
  {
  }

  lemma AnswerEmptyPath(sibs: seq<Elem>, acc: nat)
    ensures Answer(sibs, [], acc) == Refused
  {
  }

  lemma AnswerRefuses(sibs: seq<Elem>, path: seq<Piece>, acc: nat)
    requires path != []
    ensures path[0].name == [] || (exists k :: 0 <= k < |path[0].idx| && path[0].idx[k] >= 65535)
            ==> Answer(sibs, path, acc) == Refused
  {
  }

  lemma AcceptableIs(piece: Piece)
    requires piece.name != [] && !exists k :: 0 <= k < |piece.idx| && piece.idx[k] >= 65535
    ensures Acceptable(piece)
  {
  }

  /** One step of the sixteen-bit index arithmetic. */
  lemma FlatStep(idx: seq<nat>, dims: seq<nat>, k: nat, offset: nat)
    requires |idx| == |dims| && k + 1 < |idx|
    ensures (offset + Flat(idx[k..], dims[k..])) % 65536
            == ((offset + idx[k] * dims[k + 1]) % 65536 + Flat(idx[k + 1..], dims[k + 1..])) % 65536
  {
    assert idx[k..][1..] == idx[k + 1..] && dims[k..][1..] == dims[k + 1..];
  }

  lemma FlatLast(idx: seq<nat>, dims: seq<nat>)
    requires |idx| == |dims| && idx != []
    ensures Flat(idx[|idx| - 1..], dims[|idx| - 1..]) == idx[|idx| - 1]
    ensures idx[0..] == idx && dims[0..] == dims
  {
  }

  class DefReader {
    var reader: seq<byte>

    constructor () {
      reader := [];
    }

    /** Accepts only a definition that starts with the right magic. */
    method Setup(dataBlobDef: seq<byte>) returns (ok: bool)
      requires 8 <= |dataBlobDef| && ReadU16At(dataBlobDef, 4) <= |dataBlobDef|
      modifies this
      ensures ok == (dataBlobDef[..4] == MAGIC)
      ensures reader == if ok then dataBlobDef[..ReadU16At(dataBlobDef, 4)] else old(reader)
    {
      if dataBlobDef[..4] != MAGIC {
        return false;
      }
      var size := ReadU16At(dataBlobDef, 4);
      reader := dataBlobDef[..size];
      ok := true;
    }

    method BeginEnumerate(out: DefElem, ghost roots: seq<Elem>)
      requires reader == EncDef(roots) && WellBuilt(roots) && roots != [] && FullAll(roots)
      modifies out
      ensures out.At(roots) && out.reader == reader
    {
      hide EncAll, LenAll, WireAll, FullAll, LaidAll, EncDef, ReadU16At;
      DefHeader(roots);
      var size := ReadU16At(reader, 4);
      out.PrivSetup(reader, 8, size, roots);
    }

    /** For every path the outcome is `Answer`. When only the items of simple arrays go without a name, a
        path is answered and proper exactly when it names an element, and a missing name is met exactly
        below such an array. Index lists longer than eight do not fit the array the source collects
        them in. */
    method GetOffset(path: seq<Piece>, ghost roots: seq<Elem>) returns (r: Outcome)
      requires reader == EncDef(roots) && WellBuilt(roots) && roots != [] && FullAll(roots)
      requires forall k :: 0 <= k < |path| ==> |path[k].idx| <= 8
      ensures r == Answer(roots, path, 0)
      ensures r.At? && Proper(roots, path) <==> Addresses(roots, path) && !MeetsUnnamed(roots, path)
      ensures NamedAll(roots) ==> (Addresses(roots, path) <==> r.At? && Proper(roots, path))
      ensures NamedAll(roots) ==> (r == NullName <==> BelowSimpleArray(roots, path))
    {
      AnsweredExactly(roots, path);
      r := PrivGetOffset(path, roots);
    }

    /** The search itself, a component at a time. */
    method PrivGetOffset(path: seq<Piece>, ghost roots: seq<Elem>) returns (r: Outcome)
      requires reader == EncDef(roots) && WellBuilt(roots) && roots != [] && FullAll(roots)
      requires forall k :: 0 <= k < |path| ==> |path[k].idx| <= 8
      ensures r == Answer(roots, path, 0)
    {
      hide Answer, FindName, IndexOffset, Acceptable, WellBuilt, EncDef, FullAll, WireAll, EncAll, LenAll, Enc, Len;
      r := Refused;
      var elem := new DefElem();
      BeginEnumerate(elem, roots);
      AnswerEmptyPath(roots, 0);
      if path == [] {
        return;
      }
      var i := 0;
      var arrayOffset := 0;
      ghost var rest := roots;
      assert path[0..] == path;
      while i < |path|
        invariant i < |path| && elem.At(rest) && fresh(elem) && r == Refused
        invariant Answer(roots, path, 0) == Answer(rest, path[i..], arrayOffset)
        decreases |path| - i
      {
        var s := path[i];
        AnswerRefuses(rest, path[i..], arrayOffset);
        if s.name == [] {
          return;
        }
        var bad := TooLarge(s.idx);
        if bad {
          return;
        }
        AcceptableIs(s);
        // look for the name among this element and its next siblings
        var found := false;
        while !found
          invariant elem.At(rest) && fresh(elem) && found == false && r == Refused
          invariant Answer(roots, path, 0) == Answer(rest, path[i..], arrayOffset)
          decreases |rest|
        {
          AccessorName(elem, rest);
          if elem.header.name == [] {
            AnswerUnnamed(rest, path[i..], arrayOffset);
            return NullName;
          }
          if elem.header.name == s.name {
            break;
          }
          AnswerSkip(rest, path[i..], arrayOffset);
          AnswerNone(path[i..], arrayOffset);
          var more := elem.Next(rest);
          if !more {
            assert rest[1..] == [];
            return;
          }
          rest := rest[1..];
        }
        AnswerHere(rest, path[i..], arrayOffset);
        var accepted, o := PrivIndexOffset(elem, s.idx, rest);
        if !accepted {
          return;
        }
        arrayOffset := (arrayOffset + o) % 65536;
        if i + 1 == |path| {
          return At((elem.header.absOffset + arrayOffset) % 65536);
        }
        var child := elem.FirstChild(rest);
        if child {
          rest := rest[0].kids;
        }
        assert path[i..][1..] == path[i + 1..];
        i := i + 1;
      }
    }

    method TooLarge(idx: seq<nat>) returns (r: bool)
      ensures r == exists k :: 0 <= k < |idx| && idx[k] >= 65535
    {
      r := false;
      for k := 0 to |idx|
        invariant !r && forall j :: 0 <= j < k ==> idx[j] < 65535
      {
        if idx[k] >= 65535 {
          return true;
        }
      }
    }

    method PrivIndexOffset(elem: DefElem, idx: seq<nat>, ghost rest: seq<Elem>) returns (ok: bool, o: nat)
      requires elem.At(rest)
      ensures (if ok then Some(o) else None) == IndexOffset(rest[0], idx)
    {
      hide Enc, EncAll, Len, LenAll, RecLen, SizeOf, Stride, ReadU16At, ReadU8At, Flat, View;
      ok, o := false, 0;
      if |idx| == 0 {
        return true, 0;
      }
      if elem.header.elemType != 2 {
        return;
      }
      elem.ArrayAccessorsAgree(rest);
      if elem.ArrayTypeGetNumDimension() != |idx| {
        return;
      }
      var accepted, offset := PrivFlat(elem, idx, rest);
      if !accepted {
        return;
      }
      ok, o := true, offset * elem.ArrayTypeGetStride();
    }

    /** Position of an item among those of the array, in sixteen bits. */
    method PrivFlat(elem: DefElem, idx: seq<nat>, ghost rest: seq<Elem>) returns (ok: bool, offset: nat)
      requires rest != [] && rest[0].Array? && idx != [] && |idx| == |rest[0].dims|
      requires forall k :: 0 <= k < |idx| ==> elem.ArrayTypeGetNumElem(k) == rest[0].dims[k]
      ensures ok == InRange(idx, rest[0].dims)
      ensures ok ==> offset == Flat(idx, rest[0].dims) % 65536
    {
      hide DefElem.At, DefElem.ArrayTypeGetNumElem, Flat;
      ghost var dims := rest[0].dims;
      FlatLast(idx, dims);
      ok, offset := false, 0;
      var n := |idx| - 1;
      for i := 0 to n
        invariant forall k :: 0 <= k < i ==> idx[k] < dims[k]
        invariant (offset + Flat(idx[i..], dims[i..])) % 65536 == Flat(idx, dims) % 65536
        invariant !ok
      {
        if idx[i] >= elem.ArrayTypeGetNumElem(i) {
          return;
        }
        FlatStep(idx, dims, i, offset);
        var width := elem.ArrayTypeGetNumElem(i + 1);
        offset := (offset + idx[i] * width) % 65536;
      }
      if idx[n] >= elem.ArrayTypeGetNumElem(n) {
        return;
      }
      offset := (offset + idx[n]) % 65536;
      ok := true;
    }
  }

  lemma AccessorName(elem: DefElem, rest: seq<Elem>)
    requires elem.At(rest)
    ensures elem.header.name == rest[0].name && elem.header.absOffset == rest[0].off
  {
  }

  /** The two sizes at the front of a definition. */
  lemma DefHeader(roots: seq<Elem>)
    requires WellBuilt(roots)
    ensures var d := EncDef(roots);
            && ReadU16At(d, 4) == |d| == 8 + LenAll(roots) <= 65535
            && d[..4] == MAGIC && Has(d, 8, EncAll(roots, 8))
    ensures 0 <= EndOf(roots, 0) && ReadU16At(EncDef(roots), 6) == EndOf(roots, 0)
  {
    hide EncAll, LenAll, U16, ReadU16At, LaidAll, WireAll, EndOf;
    EndNotNegative(roots);
    FourParts(MAGIC, U16(8 + LenAll(roots)), U16(EndOf(roots, 0)), EncAll(roots, 8));
    HasU16(EncDef(roots), 4, 8 + LenAll(roots));
    HasU16(EncDef(roots), 6, EndOf(roots, 0));
  }

  lemma EndNotNegative(roots: seq<Elem>)
    requires WellBuilt(roots)
    ensures 0 <= EndOf(roots, 0) <= 65535
  {
    EndOfGrows(roots, 0);
  }

  lemma FourParts(m: seq<byte>, a: seq<byte>, b: seq<byte>, c: seq<byte>)
    requires |m| == 4 && |a| == |b| == 2
    ensures var d := m + a + b + c;
            d[..4] == m && Has(d, 4, a) && Has(d, 6, b) && Has(d, 8, c) && |d| == 8 + |c|
  {
  }

  // ---------------------------------------------------------------- main results

  /** Visits an element, its members and its next siblings, reading everything the accessors
      offer. What is seen is the description, in order. */
  method Walk(elem: DefElem, ghost rest: seq<Elem>) returns (seen: seq<Seen>)
    requires elem.At(rest)
    modifies elem
    ensures WireAll(rest) && seen == ViewAll(rest)
    decreases rest
  {
    hide Enc, EncAll, Len, LenAll, RecLen, Wire, ReadU16At, ReadU8At;
    var head := PrivSee(elem, rest);
    var more := elem.Next(rest);
    seen := [head];
    if more {
      var tail := Walk(elem, rest[1..]);
      seen := seen + tail;
    } else {
      assert ViewAll(rest[1..]) == [];
    }
  }

  method PrivSee(elem: DefElem, ghost rest: seq<Elem>) returns (see: Seen)
    requires elem.At(rest)
    ensures Wire(rest[0]) && see == View(rest[0])
    decreases rest, 0
  {
    hide Enc, EncAll, Len, LenAll, RecLen, ReadU16At, ReadU8At, SizeOf, Stride;
    elem.AccessorsAgree(rest);
    if rest[0].Simple? { SimpleSize(rest[0]); }
    var kids := [];
    if elem.header.elemType != 0 {
      var child := new DefElem();
      var ok := elem.GetFirstChild(child, rest);
      kids := Walk(child, rest[0].kids);
    }
    var h := elem.header;
    if h.elemType == 2 {
      elem.ArrayAccessorsAgree(rest);
      var dims := seq(elem.ArrayTypeGetNumDimension(), k requires k >= 0 reads elem => elem.ArrayTypeGetNumElem(k));
      assert dims == rest[0].dims;
      see := Seen(2, h.name, h.absOffset, h.paddedSize, h.userDefined, elem.GetDataFmt(),
                  dims, elem.ArrayTypeIsSimple(), elem.ArrayTypeGetStride(), 0, kids);
    } else {
      var members := if h.elemType == 1 then elem.StructTypeGetNumMembers() else 0;
      see := Seen(h.elemType, h.name, h.absOffset, h.paddedSize, h.userDefined, elem.GetDataFmt(),
                  [], false, 0, members, kids);
    }
  }

  lemma {:induction false} WireFits(kids: seq<Elem>)
    requires WireAll(kids)
    ensures FitsAll(kids)
    decreases kids
  {
    forall i | 0 <= i < |kids|
      ensures Fits(kids[i])
    {
      assert Wire(kids[i]);
      if !kids[i].Simple? {
        WireFits(kids[i].kids);
      }
    }
  }

  /** The range of blob bytes the reader finds for a leaf. */
  ghost function Found(roots: seq<Elem>, path: seq<Piece>): int
    requires Answer(roots, path, 0).At?
  {
    Answer(roots, path, 0).offset
  }

  /** The reader finds every element that a path names, inside the blob. */
  lemma LeafFound(roots: seq<Elem>, path: seq<Piece>)
    requires WellBuilt(roots) && NamedAll(roots) && Addresses(roots, path)
    ensures 0 <= Pos(roots, path) && Answer(roots, path, 0) == At(Pos(roots, path))
    ensures Pos(roots, path) + Extent(roots, path) <= EndOf(roots, 0)
  {
    hide Lookup, MeetsUnnamed, Addresses;
    WireFits(roots);
    AddressesNamed(roots, path);
    PathInside(roots, path, 0);
    LookupExact(roots, path, 0, 0);
  }

  /** Which answers name an element: those to proper paths, which a caller can tell beforehand, and so
      can it tell which paths meet a missing name. */
  lemma AnsweredExactly(roots: seq<Elem>, path: seq<Piece>)
    requires WellBuilt(roots)
    ensures var r := Answer(roots, path, 0);
            && (r.At? && Proper(roots, path) <==> Addresses(roots, path) && !MeetsUnnamed(roots, path))
            && (NamedAll(roots) ==> (Addresses(roots, path) <==> r.At? && Proper(roots, path)))
            && (NamedAll(roots) ==> (r == NullName <==> BelowSimpleArray(roots, path)))
  {
    hide Lookup, MeetsUnnamed, BelowSimpleArray, Addresses, Proper, NamedAll;
    WireFits(roots);
    AnswersExactly(roots, path, 0);
    if NamedAll(roots) {
      UnnamedExactly(roots, path);
      if Addresses(roots, path) { AddressesNamed(roots, path); }
    }
  }

  /** What any answered path gets, proper or not: the position of the element that is named by the
      path with the dropped components left out and the missing indices put to zero. */
  lemma AnswerIsPosition(roots: seq<Elem>, path: seq<Piece>)
    requires WellBuilt(roots) && NamedAll(roots) && Answer(roots, path, 0).At?
    ensures Addresses(roots, Normal(roots, path))
    ensures 0 <= Pos(roots, Normal(roots, path))
    ensures Answer(roots, path, 0) == At(Pos(roots, Normal(roots, path)))
    ensures Proper(roots, path) <==> Normal(roots, path) == path
  {
    hide Lookup, Addresses, Pos, Normal, Proper, MeetsUnnamed;
    assert roots[0..] == roots;
    AnswersAreElements(roots, 0, path, 0, 0);
    LeafFound(roots, Normal(roots, path));
    EndOfGrows(roots, 0);
    ProperIsKept(roots, path);
  }

  /** In any definition the builder accepts, distinct leaves are found at disjoint ranges, all
      inside the declared size of the blob -- exactly when no array that holds a byte has three
      dimensions of which both the first and the last exceed 1. */
  lemma OffsetsAreDisjoint(roots: seq<Elem>)
    requires WellBuilt(roots) && NamedAll(roots)
    ensures forall p | LeafWithBytes(roots, p) ::
              Answer(roots, p, 0).At? && 0 <= Found(roots, p)
              && Found(roots, p) + Extent(roots, p) <= ReadU16At(EncDef(roots), 6)
    ensures (forall p, q | LeafWithBytes(roots, p) && LeafWithBytes(roots, q) && p != q ::
               Apart(Found(roots, p), Extent(roots, p), Found(roots, q), Extent(roots, q)))
            <==> forall k :: 0 <= k < |roots| ==> SoundArrays(roots[k])
  {
    hide Answer, EncDef, ReadU16At, LaidAll, WireAll, NamedAll, Pos, Extent, Addresses, SoundArrays;
    forall p | LeafWithBytes(roots, p)
      ensures 0 <= Pos(roots, p) && Answer(roots, p, 0) == At(Pos(roots, p))
      ensures Pos(roots, p) + Extent(roots, p) <= EndOf(roots, 0)
    {
      LeafFound(roots, p);
    }
    DefHeader(roots);
    LayoutTheorem(roots);
  }

  // ---------------------------------------------------------------- bytes determine the description

  lemma HeadersAgree(buf: seq<byte>, pos: nat, e: Elem, f: Elem)
    requires Has(buf, pos, Enc(e, pos)) && Has(buf, pos, Enc(f, pos)) && Wire(e) && Wire(f)
    requires pos + Len(e) <= 65535 && pos + Len(f) <= 65535
    ensures HeaderOf(e, pos) == HeaderOf(f, pos)
    ensures Has(buf, pos + 12 + |CStr(e.name)|, OwnData(e, pos))
    ensures Has(buf, pos + 12 + |CStr(e.name)|, OwnData(f, pos))
  {
    hide Enc, Len, OwnRec, OwnData, DecodeHeader, Wire, Has, EncAll, RecLen, CStr, SizeOf, Kind;
    EncParts(buf, pos, e);
    EncParts(buf, pos, f);
    OwnHeader(buf, pos, e);
    OwnHeader(buf, pos, f);
  }

  lemma DataAgrees(buf: seq<byte>, at: nat, pos: nat, e: Elem, f: Elem)
    requires Has(buf, at, OwnData(e, pos)) && Has(buf, at, OwnData(f, pos)) && Wire(e) && Wire(f)
    requires Kind(e) == Kind(f)
    ensures e.Simple? ==> e.fmt == f.fmt
    ensures e.Array? ==> e.dims == f.dims
  {
    hide RecLen, Len, Stride, SizeOf, CompositeData, ReadU16At, Wire;
    if e.Simple? {
      HasAt(buf, at, [e.fmt], 0);
      HasAt(buf, at, [f.fmt], 0);
    } else if e.Array? {
      WireField(e);
      WireField(f);
      hide Has, Dims;
      ReadArrayData(buf, at, e, pos + RecLen(e), pos + Len(e), |e.kids|, Stride(e) % 256);
      ReadArrayData(buf, at, f, pos + RecLen(f), pos + Len(f), |f.kids|, Stride(f) % 256);
      DimsAgree(buf, at + 6, e.dims, f.dims);
    }
  }

  lemma {:induction false} DimsAgree(buf: seq<byte>, at: nat, ds: seq<nat>, es: seq<nat>)
    requires Has(buf, at, Dims(ds)) && Has(buf, at, Dims(es)) && |ds| == |es|
    requires forall k :: 0 <= k < |ds| ==> ds[k] <= 65535 && es[k] <= 65535
    ensures ds == es
  {
    hide Has, Dims, ReadU16At;
    forall k | 0 <= k < |ds|
      ensures ds[k] == es[k]
    {
      DimsAt(buf, at, ds, k);
      DimsAt(buf, at, es, k);
    }
  }

  /** Two runs of siblings with the same bytes are the same run. */
  lemma {:induction false} RunsAgree(buf: seq<byte>, pos: nat, es: seq<Elem>, fs: seq<Elem>)
    requires Has(buf, pos, EncAll(es, pos)) && Has(buf, pos, EncAll(fs, pos))
    requires WireAll(es) && WireAll(fs) && LenAll(es) == LenAll(fs) && pos + LenAll(es) <= 65535
    ensures es == fs
    decreases es
  {
    hide Enc, EncAll, Len, LenAll, RecLen, Wire, OwnData, DecodeHeader, HeaderOf;
    LenAllPositive(es);
    LenAllPositive(fs);
    LenAllNil();
    if es != [] {
      RunHeader(buf, pos, es);
      RunHeader(buf, pos, fs);
      ElemsAgree(buf, pos, es[0], fs[0]);
      RunsAgree(buf, pos + Len(es[0]), es[1..], fs[1..]);
      assert es == [es[0]] + es[1..] && fs == [fs[0]] + fs[1..];
    }
  }

  lemma {:induction false} ElemsAgree(buf: seq<byte>, pos: nat, e: Elem, f: Elem)
    requires Has(buf, pos, Enc(e, pos)) && Has(buf, pos, Enc(f, pos)) && Wire(e) && Wire(f)
    requires pos + Len(e) <= 65535 && pos + Len(f) <= 65535
    ensures e == f && Len(e) == Len(f)
    decreases e
  {
    hide Enc, EncAll, OwnData, DecodeHeader, OwnRec, CStr, Stride, SizeOf, Dims;
    HeadersAgree(buf, pos, e, f);
    DataAgrees(buf, pos + 12 + |CStr(e.name)|, pos, e, f);
    WireField(e);
    WireField(f);
    if e.Simple? {
      SimpleSize(e);
      SimpleSize(f);
    } else {
      EncParts(buf, pos, e);
      EncParts(buf, pos, f);
      RunsAgree(buf, pos + RecLen(e), e.kids, f.kids);
    }
  }

  lemma SimpleSize(e: Elem)
    requires e.Simple?
    ensures SizeOf(e) == e.size
  {
  }

  /** The finished bytes determine the description they were made from. */
  lemma BytesDetermineDescription(roots: seq<Elem>, roots': seq<Elem>)
    requires WellBuilt(roots) && WellBuilt(roots') && EncDef(roots) == EncDef(roots')
    ensures roots == roots'
  {
    hide EncAll, LenAll, WireAll, LaidAll, EncDef, ReadU16At;
    DefHeader(roots);
    DefHeader(roots');
    RunsAgree(EncDef(roots), 8, roots, roots');
  }
}
