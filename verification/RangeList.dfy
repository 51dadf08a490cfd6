/** Lists of free ranges in canonical form: sorted, non-empty, never touching. The form is
    unique, so what a list covers determines it. */
module RangeList {

  datatype Range = Range(start: nat, len: nat) {
    function End(): nat {
      start + len
    }
  }

  /** Ranges `a` and `b` in this order, with a gap between them. */
  predicate Before(a: Range, b: Range) {
    a.End() < b.start
  }

  ghost predicate Canon(l: seq<Range>) {
    && (forall i :: 0 <= i < |l| ==> l[i].len > 0)
    && (forall i, j :: 0 <= i < j < |l| ==> Before(l[i], l[j]))
  }

  predicate In(r: Range, b: int) {
    r.start <= b < r.End()
  }

  ghost predicate Covers(l: seq<Range>, b: int) {
    exists i :: 0 <= i < |l| && In(l[i], b)
  }

  ghost predicate SameCover(l: seq<Range>, m: seq<Range>) {
    forall b: int :: Covers(l, b) <==> Covers(m, b)
  }

  /** No block in common. */
  predicate Apart(a: Range, b: Range) {
    a.End() <= b.start || b.End() <= a.start
  }

  ghost predicate ApartFromAll(l: seq<Range>, r: Range) {
    forall i :: 0 <= i < |l| ==> Apart(l[i], r)
  }

  function Total(l: seq<Range>): nat {
    if l == [] then 0 else l[0].len + Total(l[1..])
  }

  // ---------------------------------------------------------------- uniqueness

  lemma CoversHead(l: seq<Range>, b: int)
    requires l != []
    ensures Covers(l, b) <==> In(l[0], b) || Covers(l[1..], b)
  {
    if Covers(l[1..], b) {
      var i :| 0 <= i < |l[1..]| && In(l[1..][i], b);
      assert In(l[i + 1], b);
    }
    if Covers(l, b) {
      var i :| 0 <= i < |l| && In(l[i], b);
      if i > 0 {
        assert In(l[1..][i - 1], b);
      }
    }
  }

  /** Nothing after the first range covers anything up to its end. */
  lemma TailStartsLater(l: seq<Range>, b: int)
    requires Canon(l) && l != [] && Covers(l[1..], b)
    ensures l[0].End() < b && Canon(l[1..])
  {
    var i :| 0 <= i < |l[1..]| && In(l[1..][i], b);
    assert Before(l[0], l[i + 1]);
    CanonTail(l);
  }

  lemma CanonTail(l: seq<Range>)
    requires Canon(l) && l != []
    ensures Canon(l[1..])
  {
    forall i, j | 0 <= i < j < |l[1..]|
      ensures Before(l[1..][i], l[1..][j])
    {
      assert Before(l[i + 1], l[j + 1]);
    }
  }

  lemma SameFirst(l: seq<Range>, m: seq<Range>)
    requires Canon(l) && Canon(m) && l != [] && m != [] && SameCover(l, m)
    ensures l[0].start <= m[0].start && m[0].start == l[0].start ==> l[0].len <= m[0].len
    ensures m[0].start >= l[0].start
  {
    CoversHead(l, m[0].start);
    CoversHead(m, m[0].start);
    if Covers(l[1..], m[0].start) {
      TailStartsLater(l, m[0].start);
    }
    if m[0].start == l[0].start && m[0].len < l[0].len {
      var b := m[0].End();
      CoversHead(l, b);
      CoversHead(m, b);
      if Covers(m[1..], b) {
        TailStartsLater(m, b);
      }
    }
  }

  lemma CoversFirst(l: seq<Range>)
    requires Canon(l)
    ensures l != [] ==> Covers(l, l[0].start)
  {
    if l != [] {
      assert In(l[0], l[0].start);
    }
  }

  /** Canonical lists that cover the same blocks are equal. */
  lemma {:induction false} Unique(l: seq<Range>, m: seq<Range>)
    requires Canon(l) && Canon(m) && SameCover(l, m)
    ensures l == m
    decreases |l|
  {
    CoversFirst(l);
    CoversFirst(m);
    if l != [] {
      SameFirst(l, m);
      SameFirst(m, l);
      assert l[0] == m[0];
      CanonTail(l);
      CanonTail(m);
      forall b: int
        ensures Covers(l[1..], b) <==> Covers(m[1..], b)
      {
        CoversHead(l, b);
        CoversHead(m, b);
        if Covers(l[1..], b) { TailStartsLater(l, b); }
        if Covers(m[1..], b) { TailStartsLater(m, b); }
      }
      Unique(l[1..], m[1..]);
      assert l == [l[0]] + l[1..] && m == [m[0]] + m[1..];
    }
  }

  // ---------------------------------------------------------------- giving a range back

  /** The list with `r` added, joined with whatever it touches. */
  function Insert(l: seq<Range>, r: Range): seq<Range> {
    if l == [] then [r]
    else if Before(r, l[0]) then [r] + l
    else if r.End() == l[0].start then [Range(r.start, r.len + l[0].len)] + l[1..]
    else if l[0].End() == r.start then Insert(l[1..], Range(l[0].start, l[0].len + r.len))
    else [l[0]] + Insert(l[1..], r)
  }

  lemma ApartTail(l: seq<Range>, r: Range)
    requires ApartFromAll(l, r) && l != []
    ensures Apart(l[0], r) && ApartFromAll(l[1..], r)
  {
    forall i | 0 <= i < |l[1..]|
      ensures Apart(l[1..][i], r)
    {
      assert Apart(l[i + 1], r);
    }
  }

  /** Insertion keeps a lower bound with a gap. */
  ghost predicate AllAfter(l: seq<Range>, a: Range) {
    forall i :: 0 <= i < |l| ==> Before(a, l[i])
  }

  lemma CanonCons(a: Range, l: seq<Range>)
    requires a.len > 0 && Canon(l) && AllAfter(l, a)
    ensures Canon([a] + l)
  {
    forall i, j | 0 <= i < j < |[a] + l|
      ensures Before(([a] + l)[i], ([a] + l)[j])
    {
      assert ([a] + l)[j] == l[j - 1];
      if i > 0 {
        assert ([a] + l)[i] == l[i - 1];
      }
    }
  }

  lemma TailAfterHead(l: seq<Range>)
    requires Canon(l) && l != []
    ensures AllAfter(l[1..], l[0]) && l == [l[0]] + l[1..]
  {
    forall i | 0 <= i < |l[1..]|
      ensures Before(l[0], l[1..][i])
    {
      assert Before(l[0], l[i + 1]);
    }
  }

  lemma BeforeHead(l: seq<Range>, r: Range)
    requires Canon(l) && l != [] && Before(r, l[0])
    ensures AllAfter(l, r)
  {
    forall i | 0 <= i < |l|
      ensures Before(r, l[i])
    {
      if i > 0 { assert Before(l[0], l[i]); }
    }
  }

  /** A range joined with the head of the list stays clear of the rest. */
  lemma JoinedApart(l: seq<Range>, r: Range)
    requires Canon(l) && l != [] && ApartFromAll(l, r) && l[0].End() == r.start
    ensures ApartFromAll(l[1..], Range(l[0].start, l[0].len + r.len))
  {
    TailAfterHead(l);
    ApartTail(l, r);
    forall i | 0 <= i < |l[1..]|
      ensures Apart(l[1..][i], Range(l[0].start, l[0].len + r.len))
    {
      assert Before(l[0], l[1..][i]) && Apart(l[1..][i], r);
    }
  }

  lemma {:induction false} InsertAfter(l: seq<Range>, r: Range, a: Range)
    requires AllAfter(l, a) && Before(a, r)
    ensures AllAfter(Insert(l, r), a)
    decreases |l|
  {
    if l != [] {
      AllAfterTail(l, a);
      if l[0].End() == r.start {
        InsertAfter(l[1..], Range(l[0].start, l[0].len + r.len), a);
      } else {
        InsertAfter(l[1..], r, a);
      }
    }
  }

  lemma AllAfterTail(l: seq<Range>, a: Range)
    requires AllAfter(l, a) && l != []
    ensures Before(a, l[0]) && AllAfter(l[1..], a)
  {
    forall i | 0 <= i < |l[1..]|
      ensures Before(a, l[1..][i])
    {
      assert Before(a, l[i + 1]);
    }
  }

  lemma {:induction false} InsertCanon(l: seq<Range>, r: Range)
    requires Canon(l) && r.len > 0 && ApartFromAll(l, r)
    ensures Canon(Insert(l, r))
    decreases |l|
  {
    if l != [] {
      hide Canon, ApartFromAll, AllAfter;
      CanonTail(l);
      TailAfterHead(l);
      ApartTail(l, r);
      HeadPositive(l);
      if Before(r, l[0]) {
        BeforeHead(l, r);
        CanonCons(r, l);
      } else if r.End() == l[0].start {
        JoinedBefore(l, r);
        CanonCons(Range(r.start, r.len + l[0].len), l[1..]);
      } else if l[0].End() == r.start {
        JoinedApart(l, r);
        InsertCanon(l[1..], Range(l[0].start, l[0].len + r.len));
      } else {
        InsertCanon(l[1..], r);
        InsertAfter(l[1..], r, l[0]);
        CanonCons(l[0], Insert(l[1..], r));
      }
    }
  }

  lemma HeadPositive(l: seq<Range>)
    requires Canon(l) && l != []
    ensures l[0].len > 0
  {
  }

  lemma JoinedBefore(l: seq<Range>, r: Range)
    requires Canon(l) && l != [] && r.End() == l[0].start
    ensures AllAfter(l[1..], Range(r.start, r.len + l[0].len))
  {
    TailAfterHead(l);
  }

  lemma CoversCons(a: Range, l: seq<Range>, b: int)
    ensures Covers([a] + l, b) <==> In(a, b) || Covers(l, b)
  {
    CoversHead([a] + l, b);
    assert ([a] + l)[1..] == l;
  }

  lemma {:induction false} InsertCovers(l: seq<Range>, r: Range, b: int)
    ensures Covers(Insert(l, r), b) <==> Covers(l, b) || In(r, b)
    decreases |l|
  {
    if l == [] {
      CoversCons(r, [], b);
      assert [r] + [] == [r];
    } else {
      CoversHead(l, b);
      if Before(r, l[0]) {
        CoversCons(r, l, b);
      } else if r.End() == l[0].start {
        CoversCons(Range(r.start, r.len + l[0].len), l[1..], b);
      } else if l[0].End() == r.start {
        InsertCovers(l[1..], Range(l[0].start, l[0].len + r.len), b);
      } else {
        InsertCovers(l[1..], r, b);
        CoversCons(l[0], Insert(l[1..], r), b);
      }
    }
  }

  lemma {:induction false} InsertTotal(l: seq<Range>, r: Range)
    ensures Total(Insert(l, r)) == Total(l) + r.len
    decreases |l|
  {
    if l != [] {
      if Before(r, l[0]) {
        assert ([r] + l)[1..] == l;
      } else if r.End() == l[0].start {
        assert ([Range(r.start, r.len + l[0].len)] + l[1..])[1..] == l[1..];
      } else if l[0].End() == r.start {
        InsertTotal(l[1..], Range(l[0].start, l[0].len + r.len));
      } else {
        InsertTotal(l[1..], r);
        assert ([l[0]] + Insert(l[1..], r))[1..] == Insert(l[1..], r);
      }
    } else {
      assert [r][1..] == [];
    }
  }

  /** A canonical list that covers what `l` and `r` cover is `Insert(l, r)`. */
  lemma IsInsert(l: seq<Range>, r: Range, m: seq<Range>)
    requires Canon(l) && r.len > 0 && ApartFromAll(l, r) && Canon(m)
    requires forall b: int :: Covers(m, b) <==> Covers(l, b) || In(r, b)
    ensures m == Insert(l, r)
  {
    InsertCanon(l, r);
    forall b: int
      ensures Covers(m, b) <==> Covers(Insert(l, r), b)
    {
      InsertCovers(l, r, b);
    }
    Unique(m, Insert(l, r));
  }

  // ---------------------------------------------------------------- taking from a range

  /** The list after the first `n` blocks of range `i` are taken. */
  function Take(l: seq<Range>, i: nat, n: nat): seq<Range>
    requires i < |l| && n <= l[i].len
  {
    if n == l[i].len then l[..i] + l[i + 1..] else l[i := Range(l[i].start + n, l[i].len - n)]
  }

  lemma TakeCanon(l: seq<Range>, i: nat, n: nat)
    requires Canon(l) && i < |l| && n <= l[i].len
    ensures Canon(Take(l, i, n)) && ApartFromAll(Take(l, i, n), Range(l[i].start, n))
  {
    var m := Take(l, i, n);
    var gone := n == l[i].len;
    forall p, q | 0 <= p < q < |m|
      ensures Before(m[p], m[q])
    {
      var p' := if gone && p >= i then p + 1 else p;
      var q' := if gone && q >= i then q + 1 else q;
      assert Before(l[p'], l[q']);
    }
    forall p | 0 <= p < |m|
      ensures m[p].len > 0 && Apart(m[p], Range(l[i].start, n))
    {
      var p' := if gone && p >= i then p + 1 else p;
      if p' < i { assert Before(l[p'], l[i]); }
      if i < p' { assert Before(l[i], l[p']); }
    }
  }

  lemma TakeCovers(l: seq<Range>, i: nat, n: nat, b: int)
    requires i < |l| && n <= l[i].len
    ensures Covers(l, b) <==> Covers(Take(l, i, n), b) || In(Range(l[i].start, n), b)
  {
    TakeCoversLess(l, i, n, b);
    if Covers(l, b) {
      TakeCoversEnough(l, i, n, b);
    }
  }

  lemma TakeCoversEnough(l: seq<Range>, i: nat, n: nat, b: int)
    requires i < |l| && n <= l[i].len && Covers(l, b)
    ensures Covers(Take(l, i, n), b) || In(Range(l[i].start, n), b)
  {
    var m := Take(l, i, n);
    var p :| 0 <= p < |l| && In(l[p], b);
    if p != i {
      assert In(m[if n == l[i].len && p > i then p - 1 else p], b);
    } else if !In(Range(l[i].start, n), b) {
      assert In(m[i], b);
    }
  }

  lemma TakeCoversLess(l: seq<Range>, i: nat, n: nat, b: int)
    requires i < |l| && n <= l[i].len
    ensures Covers(Take(l, i, n), b) || In(Range(l[i].start, n), b) ==> Covers(l, b)
  {
    var m := Take(l, i, n);
    if p :| 0 <= p < |m| && In(m[p], b) {
      assert In(l[if n == l[i].len && p >= i then p + 1 else p], b);
    }
    if In(Range(l[i].start, n), b) {
      assert In(l[i], b);
    }
  }

  lemma {:induction false} TakeTotal(l: seq<Range>, i: nat, n: nat)
    requires i < |l| && n <= l[i].len
    ensures Total(Take(l, i, n)) == Total(l) - n
    decreases i
  {
    var m := Take(l, i, n);
    if i == 0 {
      assert if n == l[0].len then m == l[1..] else m[1..] == l[1..];
    } else {
      TakeTotal(l[1..], i - 1, n);
      assert m[0] == l[0] && m[1..] == Take(l[1..], i - 1, n);
    }
  }

  // ---------------------------------------------------------------- main results

  /** Giving back what was just taken restores the list. */
  lemma TakeThenInsert(l: seq<Range>, i: nat, n: nat)
    requires Canon(l) && i < |l| && 0 < n <= l[i].len
    ensures Insert(Take(l, i, n), Range(l[i].start, n)) == l
  {
    TakeCanon(l, i, n);
    forall b: int
      ensures Covers(l, b) <==> Covers(Take(l, i, n), b) || In(Range(l[i].start, n), b)
    {
      TakeCovers(l, i, n, b);
    }
    IsInsert(Take(l, i, n), Range(l[i].start, n), l);
  }

  /** Giving back a series of ranges, in the order given. */
  function InsertAll(l: seq<Range>, rs: seq<Range>): seq<Range>
    decreases |rs|
  {
    if rs == [] then l else InsertAll(Insert(l, rs[0]), rs[1..])
  }

  /** Ranges that can be given back one after the other, in any order. */
  ghost predicate Loose(l: seq<Range>, rs: seq<Range>) {
    && Canon(l)
    && (forall k :: 0 <= k < |rs| ==> rs[k].len > 0 && ApartFromAll(l, rs[k]))
    && (forall j, k :: 0 <= j < k < |rs| ==> Apart(rs[j], rs[k]))
  }

  lemma LooseStep(l: seq<Range>, rs: seq<Range>)
    requires Loose(l, rs) && rs != []
    ensures Loose(Insert(l, rs[0]), rs[1..])
  {
    InsertCanon(l, rs[0]);
    forall k | 0 <= k < |rs[1..]|
      ensures ApartFromAll(Insert(l, rs[0]), rs[1..][k])
    {
      assert Apart(rs[0], rs[k + 1]) && rs[1..][k] == rs[k + 1];
      InsertApart(l, rs[0], rs[k + 1]);
    }
    forall j, k | 0 <= j < k < |rs[1..]|
      ensures Apart(rs[1..][j], rs[1..][k])
    {
      assert Apart(rs[j + 1], rs[k + 1]);
    }
  }

  lemma {:induction false} InsertApart(l: seq<Range>, r: Range, s: Range)
    requires Canon(l) && ApartFromAll(l, r) && ApartFromAll(l, s) && Apart(r, s) && r.len > 0 && s.len > 0
    ensures ApartFromAll(Insert(l, r), s)
    decreases |l|
  {
    if l != [] {
      CanonTail(l);
      TailAfterHead(l);
      ApartTail(l, r);
      ApartTail(l, s);
      if Before(r, l[0]) || r.End() == l[0].start {
      } else if l[0].End() == r.start {
        JoinedApart(l, r);
        InsertApart(l[1..], Range(l[0].start, l[0].len + r.len), s);
      } else {
        InsertApart(l[1..], r, s);
      }
    }
  }

  lemma {:induction false} InsertAllMeaning(l: seq<Range>, rs: seq<Range>, b: int)
    requires Loose(l, rs)
    ensures Canon(InsertAll(l, rs))
    ensures Covers(InsertAll(l, rs), b) <==> Covers(l, b) || Covers(rs, b)
    decreases |rs|
  {
    if rs != [] {
      LooseStep(l, rs);
      InsertAllMeaning(Insert(l, rs[0]), rs[1..], b);
      InsertCovers(l, rs[0], b);
      CoversHead(rs, b);
    }
  }

  /** The same live ranges, freed in any order, leave the same list. */
  lemma OrderDoesNotMatter(l: seq<Range>, rs: seq<Range>, rs': seq<Range>)
    requires Loose(l, rs) && Loose(l, rs') && multiset(rs) == multiset(rs')
    ensures InsertAll(l, rs) == InsertAll(l, rs')
  {
    InsertAllMeaning(l, rs, 0);
    InsertAllMeaning(l, rs', 0);
    forall b: int
      ensures Covers(InsertAll(l, rs), b) <==> Covers(InsertAll(l, rs'), b)
    {
      InsertAllMeaning(l, rs, b);
      InsertAllMeaning(l, rs', b);
      SameElements(rs, rs', b);
      SameElements(rs', rs, b);
    }
    Unique(InsertAll(l, rs), InsertAll(l, rs'));
  }

  lemma SameElements(rs: seq<Range>, rs': seq<Range>, b: int)
    requires multiset(rs) == multiset(rs')
    ensures Covers(rs, b) ==> Covers(rs', b)
  {
    if i :| 0 <= i < |rs| && In(rs[i], b) {
      assert rs[i] in multiset(rs');
      assert rs[i] in rs';
      var j :| 0 <= j < |rs'| && rs'[j] == rs[i];
    }
  }

  /** A canonical list that covers a whole interval and nothing else is that interval. */
  lemma WholeIsOneRange(l: seq<Range>, max: nat)
    requires Canon(l) && max > 0 && forall b: int :: Covers(l, b) <==> 0 <= b < max
    ensures l == [Range(0, max)]
  {
    forall b: int
      ensures Covers([Range(0, max)], b) <==> 0 <= b < max
    {
      CoversCons(Range(0, max), [], b);
      assert [Range(0, max)] + [] == [Range(0, max)];
    }
    Unique(l, [Range(0, max)]);
  }
}
