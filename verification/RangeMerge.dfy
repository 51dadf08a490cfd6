/** Joining neighbours in a list of ranges that is canonical except around one position. */
module RangeMerge {
  import opened RangeList

  /** Sorted, with gaps everywhere but perhaps on either side of `k`. */
  ghost predicate NearCanon(l: seq<Range>, k: nat) {
    && (forall i :: 0 <= i < |l| ==> l[i].len > 0)
    && (forall i, j :: 0 <= i < j < |l| ==> l[i].End() <= l[j].start)
    && (forall i, j :: 0 <= i < j < |l| && !(j == i + 1 && (i == k || j == k)) ==> Before(l[i], l[j]))
  }

  /** Range `i` extended over range `i + 1`, which goes. */
  function Joined(l: seq<Range>, i: nat): seq<Range>
    requires i + 1 < |l|
  {
    l[..i] + [Range(l[i].start, l[i].len + l[i + 1].len)] + l[i + 2..]
  }

  lemma JoinedNear(l: seq<Range>, i: nat, k: nat)
    requires i + 1 < |l| && (k == i || k == i + 1) && NearCanon(l, k) && l[i].End() == l[i + 1].start
    ensures NearCanon(Joined(l, i), i)
  {
    var m := Joined(l, i);
    forall p, q | 0 <= p < q < |m|
      ensures m[p].End() <= m[q].start
      ensures !(q == p + 1 && (p == i || q == i)) ==> Before(m[p], m[q])
    {
      var p' := if p < i then p else p + 1;
      var q' := if q <= i then q else q + 1;
      assert l[p'].End() <= l[q'].start;
    }
  }

  lemma JoinedCovers(l: seq<Range>, i: nat, b: int)
    requires i + 1 < |l| && l[i].End() == l[i + 1].start
    ensures Covers(Joined(l, i), b) <==> Covers(l, b)
  {
    var m := Joined(l, i);
    if p :| 0 <= p < |m| && In(m[p], b) {
      if p == i {
        assert In(l[i], b) || In(l[i + 1], b);
      } else {
        assert In(l[if p < i then p else p + 1], b);
      }
    }
    if p :| 0 <= p < |l| && In(l[p], b) {
      assert In(m[if p <= i then p else p - 1], b);
    }
  }

  lemma JoinedSame(l: seq<Range>, i: nat)
    requires i + 1 < |l| && l[i].End() == l[i + 1].start
    ensures SameCover(Joined(l, i), l)
  {
    forall b: int
      ensures Covers(Joined(l, i), b) <==> Covers(l, b)
    {
      JoinedCovers(l, i, b);
    }
  }

  lemma NearIsCanon(l: seq<Range>, k: nat)
    requires k < |l| && NearCanon(l, k)
    requires k > 0 ==> l[k - 1].End() != l[k].start
    requires k + 1 < |l| ==> l[k].End() != l[k + 1].start
    ensures Canon(l)
  {
  }

  // ---------------------------------------------------------------- where a returned range goes

  /** Position of the first range that starts at or after the end of `r`. */
  ghost predicate IsGap(l: seq<Range>, r: Range, i: nat) {
    && i <= |l|
    && (forall k :: 0 <= k < i ==> l[k].End() <= r.start)
    && (forall k :: i <= k < |l| ==> r.End() <= l[k].start)
  }

  lemma FindsGap(l: seq<Range>, r: Range, i: nat)
    requires Canon(l) && r.len > 0 && ApartFromAll(l, r) && i <= |l|
    requires forall k :: 0 <= k < i ==> l[k].start < r.End()
    requires i < |l| ==> r.End() <= l[i].start
    ensures IsGap(l, r, i)
  {
    forall k | i <= k < |l|
      ensures r.End() <= l[k].start
    {
      if i < k { assert Before(l[i], l[k]); }
    }
  }

  /** Returned range joined in front of range `i`. */
  lemma GrowFront(l: seq<Range>, r: Range, i: nat)
    requires Canon(l) && r.len > 0 && i < |l| && IsGap(l, r, i) && l[i].start == r.End()
    ensures var m := l[i := Range(r.start, l[i].len + r.len)];
            NearCanon(m, i) && forall b: int :: Covers(m, b) <==> Covers(l, b) || In(r, b)
  {
    var m := l[i := Range(r.start, l[i].len + r.len)];
    forall p, q | 0 <= p < q < |m|
      ensures m[p].End() <= m[q].start
      ensures !(q == p + 1 && (p == i || q == i)) ==> Before(m[p], m[q])
    {
      assert Before(l[p], l[q]);
      if q == i && p + 1 < q { assert Before(l[p], l[p + 1]); }
    }
    forall b: int
      ensures Covers(m, b) <==> Covers(l, b) || In(r, b)
    {
      GrownCovers(l, r, i, Range(r.start, l[i].len + r.len), b);
    }
  }

  /** Returned range joined behind range `i`. */
  lemma GrowBack(l: seq<Range>, r: Range, i: nat)
    requires Canon(l) && r.len > 0 && i < |l| && IsGap(l, r, i + 1) && l[i].End() == r.start
    ensures var m := l[i := Range(l[i].start, l[i].len + r.len)];
            NearCanon(m, i) && forall b: int :: Covers(m, b) <==> Covers(l, b) || In(r, b)
  {
    var m := l[i := Range(l[i].start, l[i].len + r.len)];
    forall p, q | 0 <= p < q < |m|
      ensures m[p].End() <= m[q].start
      ensures !(q == p + 1 && (p == i || q == i)) ==> Before(m[p], m[q])
    {
      assert Before(l[p], l[q]);
      if p == i && i + 1 < q { assert Before(l[i + 1], l[q]); }
    }
    forall b: int
      ensures Covers(m, b) <==> Covers(l, b) || In(r, b)
    {
      GrownCovers(l, r, i, Range(l[i].start, l[i].len + r.len), b);
    }
  }

  lemma GrownCovers(l: seq<Range>, r: Range, i: nat, g: Range, b: int)
    requires i < |l| && (In(g, b) <==> In(l[i], b) || In(r, b))
    ensures Covers(l[i := g], b) <==> Covers(l, b) || In(r, b)
  {
    var m := l[i := g];
    if p :| 0 <= p < |m| && In(m[p], b) {
      assert In(l[p], b) || In(r, b);
    }
    if p :| 0 <= p < |l| && In(l[p], b) {
      assert In(m[p], b);
    }
    if In(r, b) {
      assert In(m[i], b);
    }
  }

  /** Returned range on its own between `i - 1` and `i`. */
  lemma PutBetween(l: seq<Range>, r: Range, i: nat)
    requires Canon(l) && r.len > 0 && IsGap(l, r, i)
    ensures var m := l[..i] + [r] + l[i..];
            NearCanon(m, i) && forall b: int :: Covers(m, b) <==> Covers(l, b) || In(r, b)
  {
    var m := l[..i] + [r] + l[i..];
    forall p, q | 0 <= p < q < |m|
      ensures m[p].End() <= m[q].start
      ensures !(q == p + 1 && (p == i || q == i)) ==> Before(m[p], m[q])
    {
      if p != i && q != i {
        assert Before(l[if p < i then p else p - 1], l[if q < i then q else q - 1]);
      } else if p == i && i + 1 < q {
        assert Before(l[i], l[q - 1]);
      } else if q == i && p + 1 < q {
        assert Before(l[p], l[i - 1]);
      }
    }
    forall b: int
      ensures Covers(m, b) <==> Covers(l, b) || In(r, b)
    {
      PutCovers(l, r, i, b);
    }
  }

  lemma PutCovers(l: seq<Range>, r: Range, i: nat, b: int)
    requires i <= |l|
    ensures Covers(l[..i] + [r] + l[i..], b) <==> Covers(l, b) || In(r, b)
  {
    var m := l[..i] + [r] + l[i..];
    if p :| 0 <= p < |m| && In(m[p], b) {
      if p != i {
        assert In(l[if p < i then p else p - 1], b);
      }
    }
    if p :| 0 <= p < |l| && In(l[p], b) {
      assert In(m[if p < i then p else p + 1], b);
    }
    if In(r, b) {
      assert In(m[i], b);
    }
  }

  /** After the neighbours are joined, the list is the one with the range given back. */
  lemma MergedIsInsert(l: seq<Range>, r: Range, near: seq<Range>, m: seq<Range>)
    requires Canon(l) && r.len > 0 && ApartFromAll(l, r) && Canon(m) && SameCover(m, near)
    requires forall b: int :: Covers(near, b) <==> Covers(l, b) || In(r, b)
    ensures m == Insert(l, r)
  {
    hide Covers;
    IsInsert(l, r, m);
  }

  /** Returned range on its own, touching neither neighbour. */
  lemma PutAlone(l: seq<Range>, r: Range, i: nat)
    requires Canon(l) && r.len > 0 && ApartFromAll(l, r) && IsGap(l, r, i)
    requires i > 0 ==> l[i - 1].End() != r.start
    requires i < |l| ==> r.End() != l[i].start
    ensures l[..i] + [r] + l[i..] == Insert(l, r)
  {
    var m := l[..i] + [r] + l[i..];
    PutBetween(l, r, i);
    NearIsCanon(m, i);
    IsInsert(l, r, m);
  }

  lemma SameCoverRefl(l: seq<Range>)
    ensures SameCover(l, l)
  {
  }

  lemma SameCoverTrans(l: seq<Range>, m: seq<Range>)
    requires SameCover(m, l)
    ensures forall n: seq<Range> :: SameCover(n, m) ==> SameCover(n, l)
  {
    hide Covers;
  }
}
