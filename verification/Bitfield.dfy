/** Bitfield: bits in sixty-four-bit words. A search may set bits of the last word that are
    beyond the declared number of bits. */
module Bitfields {
  import opened Words

  /** Words for `numBit` bits. */
  function WordCount(numBit: nat): (n: nat)
    ensures numBit <= 64 * n < numBit + 64
  {
    if numBit / 64 * 64 < numBit then numBit / 64 + 1 else numBit / 64
  }

  /** Bit `pos` of a sequence of words. */
  predicate BitAt(p: seq<word>, pos: nat)
    requires pos < 64 * |p|
  {
    Bit(p[pos / 64], pos % 64)
  }

  /** The bits set in a sequence of words. */
  ghost function Bits(p: seq<word>): set<nat> {
    set k: nat | k < 64 * |p| && BitAt(p, k)
  }

  lemma Decompose(i: nat, t: nat)
    requires t < 64
    ensures (64 * i + t) / 64 == i && (64 * i + t) % 64 == t
  {
  }

  lemma Recompose(k: nat, pos: nat)
    requires k / 64 == pos / 64 && k % 64 == pos % 64
    ensures k == pos
  {
  }

  lemma InRange(pos: nat, n: nat)
    requires pos < 64 * n
    ensures pos / 64 < n
  {
  }

  lemma BitAtWith(p: seq<word>, pos: nat, k: nat)
    requires pos < 64 * |p| && k < 64 * |p|
    ensures pos / 64 < |p|
    ensures BitAt(p[pos / 64 := With(p[pos / 64], pos % 64)], k) <==> k == pos || BitAt(p, k)
  {
    hide Bit, With;
    if k / 64 == pos / 64 {
      WithMeans(p[pos / 64], pos % 64, k % 64);
      if k % 64 == pos % 64 { Recompose(k, pos); }
    }
  }

  lemma BitAtWithout(p: seq<word>, pos: nat, k: nat)
    requires pos < 64 * |p| && k < 64 * |p|
    ensures pos / 64 < |p|
    ensures BitAt(p[pos / 64 := Without(p[pos / 64], pos % 64)], k) <==> k != pos && BitAt(p, k)
  {
    hide Bit, Without;
    if k / 64 == pos / 64 {
      WithoutMeans(p[pos / 64], pos % 64, k % 64);
      if k % 64 == pos % 64 { Recompose(k, pos); }
    }
  }

  lemma BitsWith(p: seq<word>, pos: nat)
    requires pos < 64 * |p|
    ensures pos / 64 < |p|
    ensures Bits(p[pos / 64 := With(p[pos / 64], pos % 64)]) == Bits(p) + {pos}
  {
    hide BitAt, With;
    InRange(pos, |p|);
    forall k: nat | k < 64 * |p|
      ensures BitAt(p[pos / 64 := With(p[pos / 64], pos % 64)], k) <==> k == pos || BitAt(p, k)
    {
      BitAtWith(p, pos, k);
    }
  }

  lemma BitsWithout(p: seq<word>, pos: nat)
    requires pos < 64 * |p|
    ensures pos / 64 < |p|
    ensures Bits(p[pos / 64 := Without(p[pos / 64], pos % 64)]) == Bits(p) - {pos}
  {
    hide BitAt, Without;
    InRange(pos, |p|);
    forall k: nat | k < 64 * |p|
      ensures BitAt(p[pos / 64 := Without(p[pos / 64], pos % 64)], k) <==> k != pos && BitAt(p, k)
    {
      BitAtWithout(p, pos, k);
    }
  }

  lemma BitsOfZeros(p: seq<word>)
    requires forall i :: 0 <= i < |p| ==> p[i] == ZERO
    ensures Bits(p) == {}
  {
    hide Bit, ZERO;
    forall k: nat | k < 64 * |p|
      ensures !BitAt(p, k)
    {
      ZeroMeans(k % 64);
    }
  }

  /** All bits below `n` are set. */
  ghost predicate SetBelow(p: seq<word>, n: nat) {
    forall k: nat :: k < n ==> k in Bits(p)
  }

  lemma FullWord(p: seq<word>, i: nat)
    requires i < |p| && p[i] == FULL && SetBelow(p, 64 * i)
    ensures SetBelow(p, 64 * (i + 1))
  {
    hide Bit, FULL;
    forall k: nat | k < 64 * (i + 1)
      ensures k in Bits(p)
    {
      if k >= 64 * i {
        Decompose(i, k - 64 * i);
        FullHasAll(k % 64);
      }
    }
  }

  /** The first `t` bits of word `i` are set, and so are those of the words before. */
  lemma BitsBelow(p: seq<word>, i: nat, t: nat)
    requires i < |p| && t < 64 && SetBelow(p, 64 * i)
    requires forall s :: 0 <= s < t ==> Bit(p[i], s)
    ensures 64 * i + t in Bits(p) <==> Bit(p[i], t)
    ensures SetBelow(p, 64 * i + t)
  {
    hide Bit;
    Decompose(i, t);
    forall k: nat | k < 64 * i + t
      ensures k in Bits(p)
    {
      if k >= 64 * i {
        Decompose(i, k - 64 * i);
      }
    }
  }

  /** The first clear bit of a word that is not all ones. */
  method FirstClear(w: word) returns (t: nat)
    requires w != FULL
    ensures t < 64 && !Bit(w, t) && forall s :: 0 <= s < t ==> Bit(w, s)
  {
    MaskStart();
    hide Mask, FULL, And, ZERO, Twice;
    var mask: word := 1;
    FullMeans(w);
    t := 0;
    while t < 64
      invariant t <= 64 && mask == Mask(t)
      invariant forall s :: 0 <= s < t ==> Bit(w, s)
    {
      if And(w, mask) == ZERO {
        return;
      }
      MaskNext(t);
      mask := Twice(mask);
      t := t + 1;
    }
    assert false;
  }

  class Bitfield {
    var numBit: nat
    var p: seq<word>

    ghost predicate Valid()
      reads this
    {
      |p| == WordCount(numBit)
    }

    /** Setup allocates the words and leaves in them what the memory held. */
    constructor (numBitIN: nat, memory: seq<word>)
      requires |memory| == WordCount(numBitIN)
      ensures Valid() && numBit == numBitIN && p == memory
    {
      numBit := numBitIN;
      p := memory;
    }

    method Zero()
      requires Valid()
      modifies this
      ensures Valid() && numBit == old(numBit) && Bits(p) == {}
    {
      hide Bits, ZERO;
      p := seq(|p|, _ => ZERO);
      BitsOfZeros(p);
    }

    method Set(pos: nat)
      requires Valid() && pos < numBit
      modifies this
      ensures Valid() && numBit == old(numBit) && Bits(p) == old(Bits(p)) + {pos}
    {
      hide Bits, With;
      BitsWith(p, pos);
      p := p[pos / 64 := With(p[pos / 64], pos % 64)];
    }

    method Clear(pos: nat)
      requires Valid() && pos < numBit
      modifies this
      ensures Valid() && numBit == old(numBit) && Bits(p) == old(Bits(p)) - {pos}
    {
      hide Bits, Without;
      BitsWithout(p, pos);
      p := p[pos / 64 := Without(p[pos / 64], pos % 64)];
    }

    method IsBitSet(pos: nat) returns (r: bool)
      requires Valid() && pos < numBit
      ensures r <==> pos in Bits(p)
    {
      hide And, Mask, ZERO;
      InRange(pos, |p|);
      r := And(p[pos / 64], Mask(pos % 64)) != ZERO;
    }

    /** Finds and sets the lowest clear bit. When all bits of the field are set, the lowest clear
        padding bit of the last word is set all the same, if there is one, and the answer is no. */
    method FindAndSetFirstFreeBit() returns (ok: bool, pos: nat)
      requires Valid()
      modifies this
      ensures Valid() && numBit == old(numBit)
      ensures ok <==> exists k: nat :: k < numBit && k !in old(Bits(p))
      ensures ok ==> pos < numBit
      ensures if exists k: nat :: k < 64 * WordCount(numBit) && k !in old(Bits(p))
              then pos < 64 * WordCount(numBit) && pos !in old(Bits(p))
                   && (forall k: nat :: k < pos ==> k in old(Bits(p))) && Bits(p) == old(Bits(p)) + {pos}
              else !ok && p == old(p)
    {
      hide Bits, With, FULL, Bit;
      ok, pos := false, 0;
      for i := 0 to |p|
        invariant p == old(p) && numBit == old(numBit) && !ok
        invariant SetBelow(p, 64 * i)
      {
        if p[i] == FULL {
          FullWord(p, i);
          continue;
        }
        var t := FirstClear(p[i]);
        BitsBelow(p, i, t);
        pos := 64 * i + t;
        Decompose(i, t);
        BitsWith(p, pos);
        p := p[i := With(p[i], t)];
        ok := pos < numBit;
        return;
      }
    }
  }
}
