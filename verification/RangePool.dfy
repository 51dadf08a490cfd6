/** A stretch of blocks, each of which is either in the free list or in one live range. */
module RangePool {
  import opened RangeList

  ghost predicate Within(l: seq<Range>, max: nat) {
    forall i :: 0 <= i < |l| ==> l[i].End() <= max
  }

  ghost predicate LiveApart(live: set<Range>) {
    forall r, s :: r in live && s in live && r != s ==> Apart(r, s)
  }

  ghost predicate Held(live: set<Range>, b: int) {
    exists r :: r in live && In(r, b)
  }

  /** Invariant of a tracker over `max` blocks. */
  ghost predicate Pool(free: seq<Range>, live: set<Range>, max: nat, taken: nat) {
    && Canon(free) && Within(free, max)
    && (forall r :: r in live ==> r.len > 0 && r.End() <= max && ApartFromAll(free, r))
    && LiveApart(live)
    && (forall b :: 0 <= b < max ==> Covers(free, b) || Held(live, b))
    && Total(free) + taken == max
  }

  /** Live ranges of a pool, each listed once, can be given back one after the other. */
  lemma LiveIsLoose(free: seq<Range>, live: set<Range>, max: nat, taken: nat, rs: seq<Range>)
    requires Pool(free, live, max, taken) && Listed(live, rs)
    ensures Loose(free, rs)
  {
    hide Canon, Within, ApartFromAll;
  }

  ghost predicate Listed(live: set<Range>, rs: seq<Range>) {
    (forall k :: 0 <= k < |rs| ==> rs[k] in live) && forall j, k :: 0 <= j < k < |rs| ==> rs[j] != rs[k]
  }

  /** Freeing some live ranges of a tracker, in any order, leaves the same list. */
  lemma FreeingOrder(free: seq<Range>, live: set<Range>, max: nat, taken: nat, rs: seq<Range>, rs': seq<Range>)
    requires Pool(free, live, max, taken) && Listed(live, rs) && Listed(live, rs') && multiset(rs) == multiset(rs')
    ensures InsertAll(free, rs) == InsertAll(free, rs')
  {
    hide Pool, Listed, Loose, InsertAll;
    LiveIsLoose(free, live, max, taken, rs);
    LiveIsLoose(free, live, max, taken, rs');
    OrderDoesNotMatter(free, rs, rs');
  }

  /** First range with at least `n` blocks; the length of the list when there is none. */
  function FirstFit(l: seq<Range>, n: nat): (i: nat)
    ensures i <= |l| && (i < |l| ==> l[i].len >= n)
    ensures forall k :: 0 <= k < i ==> l[k].len < n
  {
    if l == [] || l[0].len >= n then 0 else 1 + FirstFit(l[1..], n)
  }

  /** Smallest range with at least `n` blocks, the first of them if there are several. */
  ghost predicate IsBestFit(l: seq<Range>, n: nat, i: nat) {
    && i < |l| && l[i].len >= n
    && (forall k :: 0 <= k < |l| && l[k].len >= n ==> l[i].len <= l[k].len)
    && (forall k :: 0 <= k < i && l[k].len >= n ==> l[i].len < l[k].len)
  }

  lemma FirstFitUnique(l: seq<Range>, n: nat, i: nat)
    requires i <= |l| && (i < |l| ==> l[i].len >= n) && forall k :: 0 <= k < i ==> l[k].len < n
    ensures i == FirstFit(l, n)
  {
  }

  lemma {:induction false} TotalBound(l: seq<Range>, max: nat)
    requires Canon(l) && Within(l, max)
    ensures Total(l) <= max && (l != [] ==> Total(l) <= max - l[0].start)
    decreases |l|
  {
    if l != [] {
      CanonTail(l);
      TailAfterHead(l);
      TotalBound(l[1..], max);
      if |l| > 1 {
        assert Before(l[0], l[1..][0]);
      }
    }
  }

  lemma {:induction false} EachWithinTotal(l: seq<Range>, i: nat)
    requires i < |l|
    ensures l[i].len <= Total(l)
    decreases i
  {
    if i > 0 {
      EachWithinTotal(l[1..], i - 1);
    }
  }

  lemma PoolAlloc(free: seq<Range>, live: set<Range>, max: nat, taken: nat, i: nat, n: nat)
    requires Pool(free, live, max, taken) && i < |free| && 0 < n <= free[i].len
    ensures var r := Range(free[i].start, n);
            Pool(Take(free, i, n), live + {r}, max, taken + n) && r !in live
  {
    hide Take, Total, Covers, Canon;
    var r := Range(free[i].start, n);
    TakeCanon(free, i, n);
    TakeTotal(free, i, n);
    TakeWithin(free, i, n, max);
    forall s | s in live
      ensures ApartFromAll(Take(free, i, n), s) && Apart(r, s)
    {
      TakeApart(free, i, n, s);
    }
    forall b | 0 <= b < max
      ensures Covers(Take(free, i, n), b) || Held(live + {r}, b)
    {
      TakeCovers(free, i, n, b);
      if Held(live, b) {
        var s :| s in live && In(s, b);
        assert s in live + {r};
      }
      assert r in live + {r};
    }
  }

  lemma TakeWithin(l: seq<Range>, i: nat, n: nat, max: nat)
    requires Within(l, max) && i < |l| && n <= l[i].len
    ensures Within(Take(l, i, n), max)
  {
  }

  lemma TakeApart(l: seq<Range>, i: nat, n: nat, s: Range)
    requires ApartFromAll(l, s) && i < |l| && 0 < n <= l[i].len && s.len > 0
    ensures ApartFromAll(Take(l, i, n), s)
    ensures Apart(Range(l[i].start, n), s) && Range(l[i].start, n) != s
  {
    var m := Take(l, i, n);
    forall k | 0 <= k < |m|
      ensures Apart(m[k], s)
    {
      assert Apart(l[if n == l[i].len && k >= i then k + 1 else k], s);
    }
  }

  lemma PoolFree(free: seq<Range>, live: set<Range>, max: nat, taken: nat, r: Range)
    requires Pool(free, live, max, taken) && r in live
    ensures r.len <= taken && ApartFromAll(free, r) && r.len > 0
    ensures Pool(Insert(free, r), live - {r}, max, taken - r.len)
  {
    hide Insert, Covers, Canon, Total;
    InsertCanon(free, r);
    InsertTotal(free, r);
    InsertWithin(free, r, max);
    TotalBound(Insert(free, r), max);
    forall s | s in live - {r}
      ensures ApartFromAll(Insert(free, r), s)
    {
      InsertApart(free, r, s);
    }
    forall b | 0 <= b < max
      ensures Covers(Insert(free, r), b) || Held(live - {r}, b)
    {
      InsertCovers(free, r, b);
      if Held(live, b) && !In(r, b) {
        var s :| s in live && In(s, b);
        assert s in live - {r};
      }
    }
  }

  lemma {:induction false} InsertWithin(l: seq<Range>, r: Range, max: nat)
    requires Within(l, max) && r.End() <= max
    ensures Within(Insert(l, r), max)
    decreases |l|
  {
    if l != [] {
      WithinTail(l, max);
      if l[0].End() == r.start {
        InsertWithin(l[1..], Range(l[0].start, l[0].len + r.len), max);
      } else {
        InsertWithin(l[1..], r, max);
      }
    }
  }

  lemma WithinTail(l: seq<Range>, max: nat)
    requires Within(l, max) && l != []
    ensures l[0].End() <= max && Within(l[1..], max)
  {
    forall i | 0 <= i < |l[1..]|
      ensures l[1..][i].End() <= max
    {
      assert l[i + 1].End() <= max;
    }
  }

  /** Once nothing is live the list is back to the single range it started from. */
  lemma PoolAllFree(free: seq<Range>, max: nat, taken: nat)
    requires Pool(free, {}, max, taken) && max > 0
    ensures free == [Range(0, max)] && taken == 0
  {
    forall b: int
      ensures Covers(free, b) <==> 0 <= b < max
    {
      if 0 <= b < max {
        assert !Held({}, b);
      }
    }
    WholeIsOneRange(free, max);
    assert Total([Range(0, max)]) == max by {
      assert [Range(0, max)][1..] == [];
    }
  }

  lemma PoolStart(max: nat)
    requires max > 0
    ensures Pool([Range(0, max)], {}, max, 0)
  {
    assert [Range(0, max)][1..] == [];
    forall b | 0 <= b < max
      ensures Covers([Range(0, max)], b)
    {
      assert In([Range(0, max)][0], b);
    }
  }

  lemma PoolCanon(free: seq<Range>, live: set<Range>, max: nat, taken: nat)
    requires Pool(free, live, max, taken)
    ensures Canon(free) && forall i :: 0 <= i < |free| ==> free[i].len > 0
  {
  }

  lemma TakeNone(l: seq<Range>, i: nat)
    requires i < |l| && l[i].len > 0
    ensures Take(l, i, 0) == l
  {
  }
}
