/** Byte buffers: big-endian integers, patching in place, and what a buffer holds at a position. */
module Bytes {

  type byte = b: nat | b < 256

  /** `static_cast<u16>` followed by a big-endian write. */
  function U16(v: int): (s: seq<byte>)
    ensures |s| == 2
  {
    [v / 256 % 256, v % 256]
  }

  function U32(v: int): (s: seq<byte>)
    ensures |s| == 4
  {
    [v / 16777216 % 256, v / 65536 % 256, v / 256 % 256, v % 256]
  }

  function Zeros(n: nat): (s: seq<byte>)
    ensures |s| == n
  {
    seq(n, _ => 0)
  }

  /** A read outside the buffer answers 0. */
  function ReadU8At(buf: seq<byte>, at: nat): byte {
    if at < |buf| then buf[at] else 0
  }

  function ReadU16At(buf: seq<byte>, at: nat): (v: nat)
    ensures v <= 65535
  {
    if at + 2 <= |buf| then buf[at] as int * 256 + buf[at + 1] as int else 0
  }

  function ReadU32At(buf: seq<byte>, at: nat): nat {
    if at + 4 <= |buf| then
      buf[at] as int * 16777216 + buf[at + 1] as int * 65536 + buf[at + 2] as int * 256 + buf[at + 3] as int
    else 0
  }

  /** Overwrites the bytes of `buf` starting at `at`. */
  function Patch(buf: seq<byte>, at: nat, data: seq<byte>): (r: seq<byte>)
    requires at + |data| <= |buf|
    ensures |r| == |buf|
  {
    buf[..at] + data + buf[at + |data|..]
  }

  /** `buf` holds `s` at position `pos`. */
  ghost predicate Has(buf: seq<byte>, pos: nat, s: seq<byte>) {
    pos + |s| <= |buf| && forall i :: 0 <= i < |s| ==> buf[pos + i] == s[i]
  }

  lemma HasAt(buf: seq<byte>, pos: nat, s: seq<byte>, i: nat)
    requires Has(buf, pos, s) && i < |s|
    ensures buf[pos + i] == s[i]
  {
  }

  lemma HasSplit(buf: seq<byte>, pos: nat, s: seq<byte>, t: seq<byte>)
    requires Has(buf, pos, s + t)
    ensures Has(buf, pos, s) && Has(buf, pos + |s|, t)
  {
    forall i | 0 <= i < |s| ensures buf[pos + i] == s[i] {
      assert (s + t)[i] == s[i];
    }
    forall i | 0 <= i < |t| ensures buf[pos + |s| + i] == t[i] {
      assert (s + t)[|s| + i] == t[i];
    }
  }

  lemma AssocOf(s: seq<byte>, a: seq<byte>, b: seq<byte>, c: seq<byte>)
    requires s == a + (b + c)
    ensures s == (a + b) + c
  {
  }

  lemma HasMiddle(a: seq<byte>, s: seq<byte>, c: seq<byte>)
    ensures Has(a + s + c, |a|, s)
  {
  }

  lemma HasSlice(buf: seq<byte>, pos: nat, s: seq<byte>)
    requires Has(buf, pos, s)
    ensures buf[pos..pos + |s|] == s
  {
  }

  lemma HasU16(buf: seq<byte>, pos: nat, v: nat)
    requires Has(buf, pos, U16(v)) && v <= 65535
    ensures ReadU16At(buf, pos) == v
  {
    HasAt(buf, pos, U16(v), 0);
    HasAt(buf, pos, U16(v), 1);
  }

  lemma FourBytes(v: nat)
    requires v < 0x1_0000_0000
    ensures v / 16777216 % 256 * 16777216 + v / 65536 % 256 * 65536 + v / 256 % 256 * 256 + v % 256 == v
  {
    assert v / 65536 == v / 256 / 256 && v / 16777216 == v / 256 / 256 / 256;
  }

  lemma HasU32(buf: seq<byte>, pos: nat, v: nat)
    requires Has(buf, pos, U32(v)) && v < 0x1_0000_0000
    ensures ReadU32At(buf, pos) == v
  {
    FourBytes(v);
    var s := U32(v);
    assert buf[pos + 0] == s[0] && buf[pos + 1] == s[1] && buf[pos + 2] == s[2] && buf[pos + 3] == s[3];
  }

  lemma PatchMiddle(a: seq<byte>, b: seq<byte>, c: seq<byte>, at: nat, data: seq<byte>)
    requires |a| <= at && at + |data| <= |a| + |b|
    ensures Patch(a + b + c, at, data) == a + Patch(b, at - |a|, data) + c
  {
    var k := at - |a|;
    assert (a + b + c)[..at] == a + b[..k];
    assert (a + b + c)[at + |data|..] == b[k + |data|..] + c;
  }
}
