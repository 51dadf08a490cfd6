/** Sixty-four-bit words as sets of bits. The bit operators appear in this module only; what
    other modules use is stated by the lemmas at its end. */
module Words {

  type word = bv64
  const ZERO: word := 0
  const FULL: word := 0xFFFF_FFFF_FFFF_FFFF

  function And(w: word, m: word): word { w & m }
  function Or(w: word, m: word): word { w | m }
  function AndNot(w: word, m: word): word { w & !m }
  function Twice(m: word): word { m << 1 }
  function Below(m: word): word { m - 1 }

  /** `1 << t`, the way the search loops move it along. */
  function Mask(t: nat): word {
    if t == 0 then 1 else Twice(Mask(t - 1))
  }

  predicate Bit(w: word, t: nat) {
    And(w, Mask(t)) != ZERO
  }

  function With(w: word, t: nat): word {
    Or(w, Mask(t))
  }

  function Without(w: word, t: nat): word {
    AndNot(w, Mask(t))
  }

  // ---------------------------------------------------------------- single words, no indices

  predicate OneBit(m: word) {
    And(m, Below(m)) == ZERO
  }

  lemma TwiceIsOneBit(m: word)
    requires OneBit(m)
    ensures OneBit(Twice(m))
  {
  }

  lemma OneBitsApart(m: word, n: word)
    requires OneBit(m) && OneBit(n) && m != n
    ensures And(m, n) == ZERO
  {
  }

  lemma OrKeeps(w: word, m: word, n: word)
    requires And(m, n) == ZERO
    ensures And(Or(w, m), n) == And(w, n)
  {
  }

  lemma AndNotKeeps(w: word, m: word, n: word)
    requires And(m, n) == ZERO
    ensures And(AndNot(w, m), n) == And(w, n)
  {
  }

  lemma OrOwn(w: word, m: word)
    ensures And(Or(w, m), m) == m
  {
  }

  lemma AndNotOwn(w: word, m: word)
    ensures And(AndNot(w, m), m) == ZERO
  {
  }

  lemma AndFull(m: word)
    ensures And(FULL, m) == m && And(m, FULL) == m
  {
  }

  lemma AndZero(m: word)
    ensures And(ZERO, m) == ZERO
  {
  }

  lemma FillStep(w: word, m: word)
    requires OneBit(m) && And(w, Below(m)) == Below(m) && And(w, m) != ZERO
    ensures And(w, Below(Twice(m))) == Below(Twice(m))
  {
  }

  lemma BelowEnds()
    ensures And(0, Below(1)) == Below(1) && Below(1) == ZERO && Below(ZERO) == FULL && Twice(ZERO) == ZERO
  {
  }

  lemma FillStart(w: word)
    ensures And(w, Below(1)) == Below(1)
  {
  }

  // ---------------------------------------------------------------- masks

  lemma MaskNext(n: nat)
    ensures Mask(n + 1) == Twice(Mask(n))
  {
  }

  lemma {:induction false} MaskIsOneBit(t: nat)
    ensures OneBit(Mask(t))
  {
    if t > 0 {
      MaskIsOneBit(t - 1);
      TwiceIsOneBit(Mask(t - 1));
    }
  }

  lemma MaskLast()
    ensures Mask(63) == 0x8000_0000_0000_0000 && Mask(64) == 0
  {
    assert Mask(8) == 0x100;
    assert Mask(16) == 0x1_0000;
    assert Mask(24) == 0x100_0000;
    assert Mask(32) == 0x1_0000_0000;
    assert Mask(40) == 0x100_0000_0000;
    assert Mask(48) == 0x1_0000_0000_0000;
    assert Mask(56) == 0x100_0000_0000_0000;
  }

  /** Shifting further changes equal masks the same way. */
  lemma {:induction false} MaskShift(s: nat, t: nat, k: nat)
    requires Mask(s) == Mask(t)
    ensures Mask(s + k) == Mask(t + k)
  {
    hide Twice;
    if k > 0 {
      MaskShift(s, t, k - 1);
    }
  }

  lemma {:induction false} ZeroStays(t: nat, k: nat)
    requires Mask(t) == ZERO
    ensures Mask(t + k) == ZERO
  {
    hide Twice;
    if k > 0 {
      ZeroStays(t, k - 1);
      BelowEnds();
    }
  }

  lemma LastIsNotZero()
    ensures Mask(63) != ZERO && Mask(64) == ZERO
  {
    hide Mask;
    MaskLast();
  }

  lemma MaskNonZero(t: nat)
    requires t < 64
    ensures Mask(t) != ZERO
  {
    hide Mask, ZERO;
    if Mask(t) == ZERO {
      ZeroStays(t, 63 - t);
      LastIsNotZero();
    }
  }

  lemma MasksDiffer(s: nat, t: nat)
    requires s < t < 64
    ensures Mask(s) != Mask(t)
  {
    hide Mask, ZERO;
    if Mask(s) == Mask(t) {
      MaskShift(s, t, 64 - t);
      LastIsNotZero();
      MaskNonZero(s + 64 - t);
    }
  }

  lemma MasksApart(s: nat, t: nat)
    requires s < 64 && t < 64 && s != t
    ensures And(Mask(s), Mask(t)) == ZERO
  {
    hide Mask, OneBit, And, ZERO;
    MaskIsOneBit(s);
    MaskIsOneBit(t);
    if s < t { MasksDiffer(s, t); } else { MasksDiffer(t, s); }
    OneBitsApart(Mask(s), Mask(t));
  }

  lemma {:induction false} FillUpTo(w: word, n: nat)
    requires n <= 64 && forall t :: 0 <= t < n ==> Bit(w, t)
    ensures And(w, Below(Mask(n))) == Below(Mask(n))
  {
    hide And, Below, Twice, OneBit, ZERO;
    if n == 0 {
      FillStart(w);
    } else {
      FillUpTo(w, n - 1);
      MaskIsOneBit(n - 1);
      assert Bit(w, n - 1);
      FillStep(w, Mask(n - 1));
    }
  }

  // ---------------------------------------------------------------- words as sets of bits

  /** Setting one bit sets that bit and no other. */
  lemma WithMeans(w: word, t: nat, s: nat)
    requires t < 64 && s < 64
    ensures Bit(With(w, t), s) <==> s == t || Bit(w, s)
  {
    hide Mask, And, Or, ZERO;
    if s == t {
      MaskNonZero(t);
      OrOwn(w, Mask(t));
    } else {
      MasksApart(t, s);
      OrKeeps(w, Mask(t), Mask(s));
    }
  }

  /** Clearing one bit clears that bit and no other. */
  lemma WithoutMeans(w: word, t: nat, s: nat)
    requires t < 64 && s < 64
    ensures Bit(Without(w, t), s) <==> s != t && Bit(w, s)
  {
    hide Mask, And, AndNot, ZERO;
    if s == t {
      AndNotOwn(w, Mask(t));
    } else {
      MasksApart(t, s);
      AndNotKeeps(w, Mask(t), Mask(s));
    }
  }

  lemma ZeroMeans(t: nat)
    ensures !Bit(ZERO, t)
  {
    hide Mask, And, ZERO;
    AndZero(Mask(t));
  }

  lemma FullHasAll(t: nat)
    requires t < 64
    ensures Bit(FULL, t)
  {
    hide Mask, And, ZERO, FULL;
    MaskNonZero(t);
    AndFull(Mask(t));
  }

  lemma OnlyFullHasAll(w: word)
    requires forall t :: 0 <= t < 64 ==> Bit(w, t)
    ensures w == FULL
  {
    FillUpTo(w, 64);
    hide Mask, And, FULL, ZERO, Bit, Below;
    LastIsNotZero();
    BelowEnds();
    AndFull(w);
  }

  /** A word equals all ones exactly when all its bits are set. */
  lemma FullMeans(w: word)
    ensures w == FULL <==> forall t :: 0 <= t < 64 ==> Bit(w, t)
  {
    hide FULL, Bit;
    if w == FULL {
      forall t | 0 <= t < 64 ensures Bit(w, t) { FullHasAll(t); }
    }
    if forall t :: 0 <= t < 64 ==> Bit(w, t) {
      OnlyFullHasAll(w);
    }
  }

  lemma MaskStart()
    ensures Mask(0) == 1
  {
  }
}
