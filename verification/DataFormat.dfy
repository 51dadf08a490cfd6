/** Data formats: one byte that says how many values of which kind there are, and whether they are signed. */
module DataFormat {
  import opened Bytes

  datatype BasicType = Bits8 | Bits16 | Bits32 | Float32

  /** A format as it is meant; a matrix with one row is not an array. */
  datatype Format =
    | Array(elements: nat, kind: BasicType, signed: bool, unorm: bool)
    | Matrix(rows: nat, columns: nat, kind: BasicType, signed: bool)

  predicate Sane(f: Format) {
    match f
    case Array(n, _, _, _) => 1 <= n <= 4
    case Matrix(r, c, _, _) => 1 <= r <= 4 && 1 <= c <= 4
  }

  function Code(t: BasicType): nat {
    match t case Bits8 => 0 case Bits16 => 1 case Bits32 => 2 case Float32 => 3
  }

  /** The byte, digit by digit: three bits for array, normalised array, or matrix with the rows; two for
      elements or columns, one for the sign, two for the kind. */
  function Packed(f: Format): byte
    requires Sane(f)
  {
    match f
    case Array(n, t, s, u) => (if u then 0x60 else 0x40) + (n - 1) * 8 + (if s then 4 else 0) + Code(t)
    case Matrix(r, c, t, s) => 0x80 + (r - 1) * 32 + (c - 1) * 8 + (if s then 4 else 0) + Code(t)
  }

  /** Bytes a value takes. */
  function Width(t: BasicType): nat {
    match t case Bits8 => 1 case Bits16 => 2 case Bits32 => 4 case Float32 => 4
  }

  function NumBytes(f: Format): nat {
    match f
    case Array(n, t, _, _) => n * Width(t)
    case Matrix(r, c, t, _) => r * c * Width(t)
  }

  // ---------------------------------------------------------------- what is read from the byte

  function GetBasicType(fmt: byte): BasicType {
    match fmt % 4 case 0 => Bits8 case 1 => Bits16 case 2 => Bits32 case _ => Float32
  }

  predicate IsSigned(fmt: byte) {
    fmt / 4 % 2 == 1
  }

  predicate IsMatrix(fmt: byte) {
    fmt / 128 == 1
  }

  predicate IsArray(fmt: byte) {
    fmt / 64 == 1
  }

  predicate IsArrayUnorm(fmt: byte) {
    fmt / 32 == 3
  }

  function GetArrayNumElem(fmt: byte): nat {
    1 + fmt / 8 % 4
  }

  function GetMatrixNumRow(fmt: byte): nat {
    1 + fmt / 32 % 4
  }

  function GetMatrixNumCol(fmt: byte): nat {
    1 + fmt / 8 % 4
  }

  /** Size in bytes; the multiplications are in one byte, which is never too small. */
  function GetSize(fmt: byte): byte {
    var numElem := if IsMatrix(fmt) then GetMatrixNumCol(fmt) * GetMatrixNumRow(fmt) else GetArrayNumElem(fmt);
    match GetBasicType(fmt)
    case Bits8 => numElem
    case Bits16 => numElem * 2
    case Bits32 => numElem * 4
    case Float32 => numElem * 4
  }

  const UNKNOWN: byte := 0x1F

  /** No rows stand for an array. */
  function Build(t: BasicType, signed: bool, numRow: nat, numCol: nat): byte {
    if numRow > 4 || !(1 <= numCol <= 4) then UNKNOWN
    else
      (match numRow case 0 => 0x40 case 1 => 0x80 case 2 => 0xA0 case 3 => 0xC0 case _ => 0xE0)
      + (if signed then 4 else 0)
      + (match t case Bits8 => 0 case Bits16 => 1 case Bits32 => 2 case Float32 => 3)
      + (match numCol case 1 => 0 case 2 => 8 case 3 => 0x10 case _ => 0x18)
  }

  // ---------------------------------------------------------------- what that means

  /** Reading a format back. */
  lemma Unpacked(f: Format)
    requires Sane(f)
    ensures var fmt := Packed(f);
            && GetBasicType(fmt) == f.kind && IsSigned(fmt) == f.signed && GetSize(fmt) == NumBytes(f)
            && IsMatrix(fmt) == f.Matrix? && IsArray(fmt) == f.Array?
            && IsArrayUnorm(fmt) == (f.Array? && f.unorm)
            && (f.Array? ==> GetArrayNumElem(fmt) == f.elements)
            && (f.Matrix? ==> GetMatrixNumRow(fmt) == f.rows && GetMatrixNumCol(fmt) == f.columns)
  {
    var a, b, c := DigitsOf(f);
    Digits(a, b, c, Code(f.kind));
    hide Packed;
  }

  lemma Digits(a: nat, b: nat, c: nat, d: nat)
    requires a < 8 && b < 4 && c < 2 && d < 4
    ensures var fmt := a * 32 + b * 8 + c * 4 + d;
            && fmt < 256 && fmt % 4 == d && fmt / 4 % 2 == c && fmt / 8 % 4 == b
            && fmt / 32 == a && fmt / 64 == a / 2 && fmt / 128 == a / 4
  {
  }

  lemma DigitsOf(f: Format) returns (a: nat, b: nat, c: nat)
    requires Sane(f)
    ensures a < 8 && b < 4 && c < 2 && Packed(f) == a * 32 + b * 8 + c * 4 + Code(f.kind)
    ensures f.signed == (c == 1)
    ensures f.Array? ==> a == (if f.unorm then 3 else 2) && b + 1 == f.elements
    ensures f.Matrix? ==> a == 4 + f.rows - 1 && b + 1 == f.columns
  {
    c := if f.signed then 1 else 0;
    if f.Array? {
      a, b := if f.unorm then 3 else 2, f.elements - 1;
    } else {
      a, b := 4 + f.rows - 1, f.columns - 1;
    }
  }

  /** What `build` makes is the packed format, and it refuses exactly what is no format. */
  lemma BuiltIs(t: BasicType, signed: bool, numRow: nat, numCol: nat)
    ensures numRow <= 4 && 1 <= numCol <= 4 ==>
              Build(t, signed, numRow, numCol)
              == Packed(if numRow == 0 then Array(numCol, t, signed, false) else Matrix(numRow, numCol, t, signed))
    ensures Build(t, signed, numRow, numCol) == UNKNOWN <==> numRow > 4 || numCol == 0 || numCol > 4
  {
  }

  /** Different formats have different bytes. */
  lemma PackedOnce(f: Format, g: Format)
    requires Sane(f) && Sane(g) && Packed(f) == Packed(g)
    ensures f == g
  {
    Unpacked(f);
    Unpacked(g);
  }

  /** One value of each kind, as the enumeration lists them, and the largest matrix. */
  lemma Listed()
    ensures GetSize(64) == 1 && Packed(Array(1, Bits8, false, false)) == 64
    ensures GetSize(65) == 2 && Packed(Array(1, Bits16, false, false)) == 65
    ensures GetSize(66) == 4 && Packed(Array(1, Bits32, false, false)) == 66
    ensures GetSize(71) == 4 && Packed(Array(1, Float32, true, false)) == 71
    ensures GetSize(0x78) == 4 && Packed(Array(4, Bits8, false, true)) == 0x78
    ensures GetSize(255) == 64 && Packed(Matrix(4, 4, Float32, true)) == 255
  {
  }
}
