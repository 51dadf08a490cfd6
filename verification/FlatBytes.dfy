/** A sequence of chunks read as one flat sequence. */
module FlatBytes {
  import opened Bytes

  function Flat(ds: seq<seq<byte>>): seq<byte> {
    if ds == [] then [] else ds[0] + Flat(ds[1..])
  }

  lemma {:induction false} FlatJoin(a: seq<seq<byte>>, b: seq<seq<byte>>)
    ensures Flat(a + b) == Flat(a) + Flat(b)
  {
    if a == [] {
      assert a + b == b;
    } else {
      assert (a + b)[1..] == a[1..] + b;
      FlatJoin(a[1..], b);
    }
  }

  lemma FlatOne(d: seq<byte>)
    ensures Flat([d]) == d
  {
    assert [d][1..] == [];
  }

  lemma FlatAround(ds: seq<seq<byte>>, i: nat)
    requires i < |ds|
    ensures Flat(ds) == Flat(ds[..i]) + ds[i] + Flat(ds[i + 1..])
  {
    hide Flat;
    var a, b, c := ds[..i], [ds[i]], ds[i + 1..];
    assert ds == (a + b) + c;
    FlatJoin(a + b, c);
    FlatJoin(a, b);
    FlatOne(ds[i]);
  }

  /** A chunk is a slice of the flat sequence. */
  lemma ChunkInFlat(ds: seq<seq<byte>>, i: nat, from: nat, n: nat)
    requires i < |ds| && from + n <= |ds[i]|
    ensures |Flat(ds[..i])| + from + n <= |Flat(ds)|
    ensures Flat(ds)[|Flat(ds[..i])| + from..|Flat(ds[..i])| + from + n] == ds[i][from..from + n]
  {
    hide Flat;
    FlatAround(ds, i);
  }

  lemma PatchInMiddle(a: seq<byte>, b: seq<byte>, c: seq<byte>, from: nat, x: seq<byte>)
    requires from + |x| <= |b|
    ensures a + Patch(b, from, x) + c == Patch(a + b + c, |a| + from, x)
  {
  }

  /** Writing inside one chunk is writing at the same place of the flat sequence. */
  lemma FlatPatch(ds: seq<seq<byte>>, i: nat, from: nat, x: seq<byte>)
    requires i < |ds| && from + |x| <= |ds[i]|
    ensures |Flat(ds[..i])| + from + |x| <= |Flat(ds)|
    ensures Flat(ds[i := Patch(ds[i], from, x)]) == Patch(Flat(ds), |Flat(ds[..i])| + from, x)
  {
    var es := ds[i := Patch(ds[i], from, x)];
    assert es[..i] == ds[..i] && es[i + 1..] == ds[i + 1..];
    hide Flat, Patch;
    FlatAround(ds, i);
    FlatAround(es, i);
    PatchInMiddle(Flat(ds[..i]), ds[i], Flat(ds[i + 1..]), from, x);
  }

  /** Two writes, the second starting where the first ended, are one write. */
  lemma PatchTwice(s: seq<byte>, at: nat, x: seq<byte>, y: seq<byte>)
    requires at + |x| + |y| <= |s|
    ensures Patch(Patch(s, at, x), at + |x|, y) == Patch(s, at, x + y)
  {
    var l, r := Patch(Patch(s, at, x), at + |x|, y), Patch(s, at, x + y);
    assert l[..at] == r[..at];
    assert l[at + |x| + |y|..] == r[at + |x| + |y|..];
    assert l[at..at + |x|] == x == r[at..at + |x|];
    assert l[at + |x|..at + |x| + |y|] == y == r[at + |x|..at + |x| + |y|];
    Quarters(l, r, at, at + |x|, at + |x| + |y|);
  }

  lemma Quarters(l: seq<byte>, r: seq<byte>, a: nat, b: nat, c: nat)
    requires a <= b <= c <= |l| == |r|
    requires l[..a] == r[..a] && l[a..b] == r[a..b] && l[b..c] == r[b..c] && l[c..] == r[c..]
    ensures l == r
  {
    assert l == l[..a] + l[a..b] + l[b..c] + l[c..];
    assert r == r[..a] + r[a..b] + r[b..c] + r[c..];
  }
}
