/** Which lists of the scan are the same whatever order the rows come in. The rows come sorted by path, so
    this is what renaming a file can change. */
module ScanEveryOrder {
  import opened DepGraph
  import opened AssetDb
  import opened AssetScan
  import opened ScanOrder

  // ---------------------------------------------------------------- orders

  predicate Distinct(order: seq<Uid>) {
    forall i, j :: 0 <= i < j < |order| ==> order[i] != order[j]
  }

  /** The rows, each once. */
  ghost predicate IsOrder(t: Tables, order: seq<Uid>) {
    Rows(order) == t.res.Keys && Distinct(order)
  }

  lemma Joined(a: seq<Uid>, b: seq<Uid>)
    ensures Rows(a + b) == Rows(a) + Rows(b)
    ensures Distinct(a) && Distinct(b) && Rows(a) !! Rows(b) ==> Distinct(a + b)
  {
    assert forall u :: u in a + b <==> u in a || u in b;
    if Distinct(a) && Distinct(b) && Rows(a) !! Rows(b) {
      forall i, j | 0 <= i < j < |a + b| ensures (a + b)[i] != (a + b)[j] {
        if i < |a| <= j {
          assert (a + b)[i] in Rows(a) && (a + b)[j] in Rows(b);
        }
      }
    }
  }

  lemma OrderOf(rows: set<Uid>) returns (order: seq<Uid>)
    ensures Rows(order) == rows && Distinct(order)
    decreases rows
  {
    order := [];
    if rows != {} {
      var u :| u in rows;
      var rest := OrderOf(rows - {u});
      assert Rows([u]) == {u};
      Joined([u], rest);
      order := [u] + rest;
    }
  }

  /** Some rows may come before all others. */
  lemma OrderAfter(t: Tables, front: seq<Uid>) returns (order: seq<Uid>)
    requires Distinct(front) && Rows(front) <= t.res.Keys
    ensures IsOrder(t, order) && front <= order
  {
    var rest := OrderOf(t.res.Keys - Rows(front));
    order := front + rest;
    Joined(front, rest);
  }

  // ---------------------------------------------------------------- resources that may be useless

  /** It is below a changed row. */
  ghost predicate Below(t: Tables, files: Files, x: Uid) {
    exists u :: ChangedRow(t, files, u) && Reach(t.deps, u, x)
  }

  /** It is below a changed row that no other row takes out without being above it as well. */
  ghost predicate SurelyBelow(t: Tables, files: Files, x: Uid) {
    exists u :: ChangedRow(t, files, u) && Reach(t.deps, u, x) && AllPass(t, files, u, x)
  }

  ghost predicate AllPass(t: Tables, files: Files, u: Uid, x: Uid) {
    forall s :: ChangedRow(t, files, s) && Reach(t.deps, u, s) ==> Reach(t.deps, s, x)
  }

  /** A resource is listed in some order exactly when it is below a changed row, and in every order exactly
      when it is below one whose changed requirements are all above it. */
  lemma UselessInOrders(t: Tables, files: Files, x: Uid)
    ensures (exists order :: IsOrder(t, order) && x in Useless(t, files, order)) <==> Below(t, files, x)
    ensures (forall order :: IsOrder(t, order) ==> x in Useless(t, files, order)) <==> SurelyBelow(t, files, x)
  {
    hide Useless, IsOrder, ChangedRow, Reach;
    if order :| IsOrder(t, order) && x in Useless(t, files, order) {
      UselessMeans(t, files, order, x);
    }
    if Below(t, files, x) {
      var u :| ChangedRow(t, files, u) && Reach(t.deps, u, x);
      var order := FirstLists(t, files, u, x);
    }
    if SurelyBelow(t, files, x) {
      var u :| ChangedRow(t, files, u) && Reach(t.deps, u, x) && AllPass(t, files, u, x);
      forall order | IsOrder(t, order) ensures x in Useless(t, files, order) {
        SurelyListed(t, files, u, x, order);
      }
    } else {
      var order := NotListed(t, files, x);
    }
  }

  /** The first row finds the whole graph. */
  lemma FirstLists(t: Tables, files: Files, u: Uid, x: Uid) returns (order: seq<Uid>)
    requires ChangedRow(t, files, u) && Reach(t.deps, u, x)
    ensures IsOrder(t, order) && x in Useless(t, files, order)
  {
    hide Useless, Reach;
    order := OrderAfter(t, [u]);
    UselessMeans(t, files, order, x);
    assert ListsUseless(t, files, order, 0, x);
  }

  /** The first of the changed rows at or below `u` is still there when its turn comes. */
  lemma SurelyListed(t: Tables, files: Files, u: Uid, x: Uid, order: seq<Uid>)
    requires ChangedRow(t, files, u) && Reach(t.deps, u, x) && AllPass(t, files, u, x) && IsOrder(t, order)
    ensures x in Useless(t, files, order)
  {
    hide Useless, Reach;
    assert u in order;
    var i := 0;
    while !(order[i] == u || (ChangedRow(t, files, order[i]) && Reach(t.deps, u, order[i])))
      invariant i < |order| && u !in order[..i]
      invariant forall j :: 0 <= j < i ==> !(ChangedRow(t, files, order[j]) && Reach(t.deps, u, order[j]))
      decreases |order| - i
    {
      i := i + 1;
    }
    if GoneBefore(t, files, order, i, order[i]) {
      var j :| 0 <= j < i && ChangedRow(t, files, order[j]) && Reach(t.deps, order[i], order[j]);
      if order[i] != u { ReachTrans(t.deps, u, order[i], order[j]); }
      assert false;
    }
    assert ListsUseless(t, files, order, i, x);
    UselessMeans(t, files, order, x);
  }

  /** With all changed rows that are not above it in front, nothing is left that could list it. */
  lemma NotListed(t: Tables, files: Files, x: Uid) returns (order: seq<Uid>)
    requires !SurelyBelow(t, files, x)
    ensures IsOrder(t, order) && x !in Useless(t, files, order)
  {
    hide Useless, Reach;
    var front := OrderOf(set s | s in t.res.Keys && ChangedRow(t, files, s) && !Reach(t.deps, s, x));
    order := OrderAfter(t, front);
    assert forall k :: 0 <= k < |front| ==> order[k] in Rows(front);
    UselessMeans(t, files, order, x);
    forall i | 0 <= i < |order|
      ensures !ListsUseless(t, files, order, i, x)
    {
      var u := order[i];
      if ChangedRow(t, files, u) && Reach(t.deps, u, x) {
        assert !AllPass(t, files, u, x);
        var s :| ChangedRow(t, files, s) && Reach(t.deps, u, s) && !Reach(t.deps, s, x);
        assert s in Rows(front) && u !in Rows(front);
        var j :| 0 <= j < |front| && front[j] == s;
        assert order[j] == s;
        assert GoneBefore(t, files, order, i, u);
      }
    }
  }

  /** No changed row requires another one. */
  ghost predicate Unrelated(t: Tables, files: Files) {
    forall u, v :: ChangedRow(t, files, u) && ChangedRow(t, files, v) ==> !Reach(t.deps, u, v)
  }

  ghost predicate SameUseless(t: Tables, files: Files) {
    forall o, p :: IsOrder(t, o) && IsOrder(t, p) ==> Useless(t, files, o) == Useless(t, files, p)
  }

  ghost predicate AllBelowListed(t: Tables, files: Files) {
    forall order, x :: IsOrder(t, order) ==> (x in Useless(t, files, order) <==> Below(t, files, x))
  }

  /** The order does not matter for the whole list, and then everything below a changed row is in it,
      exactly when no changed row requires another one. */
  lemma UselessWhateverTheOrder(t: Tables, files: Files)
    requires Acyclic(t.deps)
    ensures SameUseless(t, files) <==> Unrelated(t, files)
    ensures AllBelowListed(t, files) <==> Unrelated(t, files)
  {
    hide Useless, IsOrder, ChangedRow, Reach, Below, SurelyBelow;
    if Unrelated(t, files) {
      forall order, x | IsOrder(t, order)
        ensures x in Useless(t, files, order) <==> Below(t, files, x)
      {
        UselessInOrders(t, files, x);
        if Below(t, files, x) { UnrelatedSurely(t, files, x); }
      }
      AllThenSame(t, files);
    } else {
      var u, v :| ChangedRow(t, files, u) && ChangedRow(t, files, v) && Reach(t.deps, u, v);
      UselessInOrders(t, files, v);
      RelatedBelow(t, files, u, v);
      var o :| IsOrder(t, o) && v in Useless(t, files, o);
      var p :| IsOrder(t, p) && v !in Useless(t, files, p);
    }
  }

  lemma UnrelatedSurely(t: Tables, files: Files, x: Uid)
    requires Unrelated(t, files) && Below(t, files, x)
    ensures SurelyBelow(t, files, x)
  {
    hide ChangedRow, Reach;
    var u :| ChangedRow(t, files, u) && Reach(t.deps, u, x);
    assert AllPass(t, files, u, x);
  }

  lemma AllThenSame(t: Tables, files: Files)
    requires AllBelowListed(t, files)
    ensures SameUseless(t, files)
  {
    hide Useless, IsOrder, Below;
    forall o, p | IsOrder(t, o) && IsOrder(t, p)
      ensures Useless(t, files, o) == Useless(t, files, p)
    {
      forall x ensures x in Useless(t, files, o) <==> x in Useless(t, files, p) {
        assert x in Useless(t, files, o) <==> Below(t, files, x);
      }
    }
  }

  /** A changed row that another one requires may come first, and then it is not listed. */
  lemma RelatedBelow(t: Tables, files: Files, u: Uid, v: Uid)
    requires Acyclic(t.deps) && ChangedRow(t, files, u) && ChangedRow(t, files, v) && Reach(t.deps, u, v)
    ensures Below(t, files, v) && !SurelyBelow(t, files, v)
  {
    hide ChangedRow, Reach;
  }

  // ---------------------------------------------------------------- signatures

  /** The scan lists the signature of this asset on account of it. */
  ghost predicate Lists(t: Tables, files: Files, order: seq<Uid>, a: Uid) {
    exists i :: 0 <= i < |order| && ListsSignature(t, files, order, i, a)
  }

  ghost predicate ListsOne(t: Tables, files: Files, order: seq<Uid>, some: set<Uid>) {
    exists a :: a in some && Lists(t, files, order, a)
  }

  /** Row `s` takes out the file that declares the asset. */
  ghost predicate TakesFile(t: Tables, files: Files, s: Uid, a: Uid) {
    a in t.assets && ChangedRow(t, files, s) && (s == t.assets[a].uidIni || Reach(t.deps, t.assets[a].uidIni, s))
  }

  ghost predicate TakesAsset(t: Tables, files: Files, s: Uid, a: Uid) {
    ChangedRow(t, files, s) && Reach(t.deps, a, s)
  }

  /** An asset the scan removes and whose declaring file has a row when the scan starts. */
  ghost predicate Candidate(t: Tables, files: Files, a: Uid) {
    && a in t.assets && a !in t.res && t.assets[a].uidIni in t.res
    && exists s :: TakesAsset(t, files, s, a)
  }

  /** Whatever takes out a declaring file of these takes out one of them as well. */
  ghost predicate Guarded(t: Tables, files: Files, some: set<Uid>) {
    forall s, a :: a in some && TakesFile(t, files, s, a) ==> TakesOne(t, files, s, some)
  }

  ghost predicate TakesOne(t: Tables, files: Files, s: Uid, some: set<Uid>) {
    exists b :: b in some && TakesAsset(t, files, s, b)
  }

  ghost predicate HasGuarded(t: Tables, files: Files, some: set<Uid>) {
    exists sub: set<Uid> :: sub != {} && sub <= some && Guarded(t, files, sub)
  }

  lemma ListsIs(t: Tables, files: Files, order: seq<Uid>, i: nat, a: Uid)
    requires IsOrder(t, order) && i < |order| && Candidate(t, files, a)
    ensures ListsSignature(t, files, order, i, a)
            <==> TakesAsset(t, files, order[i], a)
                 && forall j :: 0 <= j < i ==> !TakesAsset(t, files, order[j], a) && !TakesFile(t, files, order[j], a)
  {
    hide Reach;
  }

  /** The first row that takes one of them, or the file of one, takes one whose file is still there. */
  lemma GuardedListed(t: Tables, files: Files, some: set<Uid>, order: seq<Uid>)
    requires IsOrder(t, order) && some != {} && Guarded(t, files, some)
    requires forall a :: a in some ==> Candidate(t, files, a)
    ensures ListsOne(t, files, order, some)
  {
    hide TakesAsset, TakesFile, ListsSignature, IsOrder;
    var c :| c in some;
    var last := TakenAt(t, files, c, order);
    var i := 0;
    while !TakesOne(t, files, order[i], some)
      invariant i <= last < |order| && TakesAsset(t, files, order[last], c)
      invariant forall j :: 0 <= j < i ==> !TakesOne(t, files, order[j], some)
      decreases last - i
    {
      assert i < last;
      i := i + 1;
    }
    var a :| a in some && TakesAsset(t, files, order[i], a);
    ListsIs(t, files, order, i, a);
    assert Lists(t, files, order, a);
  }

  lemma TakenAt(t: Tables, files: Files, a: Uid, order: seq<Uid>) returns (i: nat)
    requires IsOrder(t, order) && Candidate(t, files, a)
    ensures i < |order| && TakesAsset(t, files, order[i], a)
  {
    hide Reach;
    var s :| TakesAsset(t, files, s, a);
    assert s in Rows(order);
    i :| 0 <= i < |order| && order[i] == s;
  }

  /** Otherwise one row after the other takes files away without taking an asset whose file is there. */
  lemma {:induction false} Defeat(t: Tables, files: Files, some: set<Uid>) returns (front: seq<Uid>)
    requires !HasGuarded(t, files, some)
    ensures Distinct(front) && Rows(front) <= t.res.Keys
    ensures forall k :: 0 <= k < |front| ==> TakesFileOfOne(t, files, front[k], some)
    ensures forall a :: a in some ==> Defeated(t, files, front, a)
    decreases some
  {
    front := [];
    if some != {} {
      assert !Guarded(t, files, some);
      var s, a :| a in some && TakesFile(t, files, s, a) && !TakesOne(t, files, s, some);
      var left := set b | b in some && !TakesFile(t, files, s, b);
      FewerGuarded(t, files, some, left);
      assert a !in left;
      var rest := Defeat(t, files, left);
      DefeatMore(t, files, some, left, s, a, rest);
      front := [s] + rest;
    }
  }

  ghost predicate TakesFileOfOne(t: Tables, files: Files, s: Uid, some: set<Uid>) {
    exists a :: a in some && TakesFile(t, files, s, a)
  }

  /** A row takes the declaring file before any row has taken the asset. */
  ghost predicate Defeated(t: Tables, files: Files, order: seq<Uid>, a: Uid) {
    exists k :: 0 <= k < |order| && TakesFile(t, files, order[k], a)
                && forall j :: 0 <= j <= k ==> !TakesAsset(t, files, order[j], a)
  }

  lemma FewerGuarded(t: Tables, files: Files, some: set<Uid>, left: set<Uid>)
    requires !HasGuarded(t, files, some) && left <= some
    ensures !HasGuarded(t, files, left)
  {
    hide Guarded;
  }

  lemma DefeatMore(t: Tables, files: Files, some: set<Uid>, left: set<Uid>, s: Uid, a: Uid, rest: seq<Uid>)
    requires a in some && TakesFile(t, files, s, a) && !TakesOne(t, files, s, some)
    requires left == set b | b in some && !TakesFile(t, files, s, b)
    requires Distinct(rest) && Rows(rest) <= t.res.Keys
    requires forall k :: 0 <= k < |rest| ==> TakesFileOfOne(t, files, rest[k], left)
    requires forall b :: b in left ==> Defeated(t, files, rest, b)
    ensures var front := [s] + rest;
            && Distinct(front) && Rows(front) <= t.res.Keys
            && (forall k :: 0 <= k < |front| ==> TakesFileOfOne(t, files, front[k], some))
            && (forall b :: b in some ==> Defeated(t, files, front, b))
  {
    var front := [s] + rest;
    RowTakes(t, files, s, a);
    hide TakesFile, TakesAsset, Defeated, Distinct;
    assert Rows([s]) == {s};
    assert forall k :: 0 <= k < |rest| ==> rest[k] != s;
    OneDistinct(s);
    Joined([s], rest);
    forall b | b in some
      ensures Defeated(t, files, front, b)
    {
      assert !TakesAsset(t, files, s, b);
      if b in left {
        DefeatedLater(t, files, s, rest, b);
      } else {
        DefeatedAtOnce(t, files, s, rest, b);
      }
    }
  }

  lemma OneDistinct(s: Uid)
    ensures Distinct([s])
  {
  }

  lemma RowTakes(t: Tables, files: Files, s: Uid, a: Uid)
    requires TakesFile(t, files, s, a)
    ensures s in t.res
  {
  }

  lemma DefeatedLater(t: Tables, files: Files, s: Uid, rest: seq<Uid>, b: Uid)
    requires Defeated(t, files, rest, b) && !TakesAsset(t, files, s, b)
    ensures Defeated(t, files, [s] + rest, b)
  {
    hide TakesFile, TakesAsset;
    var k :| 0 <= k < |rest| && TakesFile(t, files, rest[k], b)
             && forall j :: 0 <= j <= k ==> !TakesAsset(t, files, rest[j], b);
    assert ([s] + rest)[k + 1] == rest[k];
  }

  lemma DefeatedAtOnce(t: Tables, files: Files, s: Uid, rest: seq<Uid>, b: Uid)
    requires TakesFile(t, files, s, b) && !TakesAsset(t, files, s, b)
    ensures Defeated(t, files, [s] + rest, b)
  {
    hide TakesFile, TakesAsset;
    assert ([s] + rest)[0] == s;
  }

  lemma DefeatedNotListed(t: Tables, files: Files, front: seq<Uid>, order: seq<Uid>, a: Uid)
    requires IsOrder(t, order) && front <= order && Defeated(t, files, front, a) && Candidate(t, files, a)
    ensures !Lists(t, files, order, a)
  {
    hide IsOrder, TakesAsset, TakesFile, Candidate, ListsSignature;
    forall i | 0 <= i < |order|
      ensures !ListsSignature(t, files, order, i, a)
    {
      ListsIs(t, files, order, i, a);
    }
  }

  /** In every order one of these assets is listed exactly when some of them guard each other. */
  lemma ListedInEveryOrder(t: Tables, files: Files, some: set<Uid>)
    requires forall a :: a in some ==> Candidate(t, files, a)
    ensures (forall order :: IsOrder(t, order) ==> ListsOne(t, files, order, some)) <==> HasGuarded(t, files, some)
  {
    hide IsOrder, Candidate, Guarded, Lists;
    if HasGuarded(t, files, some) {
      var sub: set<Uid> :| sub != {} && sub <= some && Guarded(t, files, sub);
      forall order | IsOrder(t, order) ensures ListsOne(t, files, order, some) {
        GuardedListed(t, files, sub, order);
      }
    } else {
      var front := Defeat(t, files, some);
      var order := OrderAfter(t, front);
      forall a | a in some ensures !Lists(t, files, order, a) {
        DefeatedNotListed(t, files, front, order, a);
      }
    }
  }

  /** For one asset: in some order exactly when the scan removes it and its declaring file has a row, and in
      every order exactly when, besides, every changed row that the file is or requires is required by
      the asset too. */
  lemma AssetInOrders(t: Tables, files: Files, a: Uid)
    requires a in t.assets && a !in t.res
    ensures (exists order :: IsOrder(t, order) && Lists(t, files, order, a)) <==> Candidate(t, files, a)
    ensures (forall order :: IsOrder(t, order) ==> Lists(t, files, order, a))
            <==> Candidate(t, files, a)
                 && forall s :: TakesFile(t, files, s, a) ==> TakesAsset(t, files, s, a)
  {
    hide IsOrder, Lists, TakesAsset, TakesFile;
    if order :| IsOrder(t, order) && Lists(t, files, order, a) {
      ListedIsCandidate(t, files, order, a);
    }
    if Candidate(t, files, a) {
      var s :| TakesAsset(t, files, s, a);
      var order := FirstTakes(t, files, s, a);
      ListedInEveryOrder(t, files, {a});
      OneGuarded(t, files, a);
      hide Candidate, Guarded;
      forall order ensures ListsOne(t, files, order, {a}) <==> Lists(t, files, order, a) {
      }
    } else {
      var order := OrderAfter(t, []);
    }
  }

  lemma ListedIsCandidate(t: Tables, files: Files, order: seq<Uid>, a: Uid)
    requires Lists(t, files, order, a) && a !in t.res
    ensures Candidate(t, files, a)
  {
    hide Reach, GoneBefore;
    var i :| 0 <= i < |order| && ListsSignature(t, files, order, i, a);
    assert TakesAsset(t, files, order[i], a);
  }

  lemma FirstTakes(t: Tables, files: Files, s: Uid, a: Uid) returns (order: seq<Uid>)
    requires Candidate(t, files, a) && TakesAsset(t, files, s, a)
    ensures IsOrder(t, order) && Lists(t, files, order, a)
  {
    hide Reach;
    order := OrderAfter(t, [s]);
    ListsIs(t, files, order, 0, a);
    assert ListsSignature(t, files, order, 0, a);
  }

  lemma OneGuarded(t: Tables, files: Files, a: Uid)
    ensures HasGuarded(t, files, {a}) <==> forall s :: TakesFile(t, files, s, a) ==> TakesAsset(t, files, s, a)
  {
    hide TakesAsset, TakesFile;
    assert forall sub: set<Uid> :: sub != {} && sub <= {a} ==> sub == {a};
    if HasGuarded(t, files, {a}) {
      assert Guarded(t, files, {a});
    }
    if forall s :: TakesFile(t, files, s, a) ==> TakesAsset(t, files, s, a) {
      assert Guarded(t, files, {a});
    }
  }

  /** The assets on whose account a signature may be listed. */
  ghost function With(t: Tables, files: Files, g: Uid): (some: set<Uid>)
    ensures forall a :: a in some ==> Candidate(t, files, a)
  {
    set a | a in t.assets && t.assets[a].signature == g && Candidate(t, files, a)
  }

  /** A signature is in the list in some order exactly when an asset that has it is a candidate, and in
      every order exactly when some of those assets guard each other. */
  lemma SignaturesInOrders(t: Tables, files: Files, g: Uid)
    requires forall a :: a in t.assets ==> a !in t.res
    ensures (exists order :: IsOrder(t, order) && g in Signatures(t, files, order)) <==> With(t, files, g) != {}
    ensures (forall order :: IsOrder(t, order) ==> g in Signatures(t, files, order))
            <==> HasGuarded(t, files, With(t, files, g))
  {
    hide IsOrder, Candidate, Lists, Signatures, HasGuarded;
    forall order ensures g in Signatures(t, files, order) <==> ListsOne(t, files, order, With(t, files, g)) {
      SignatureByAsset(t, files, order, g);
    }
    ListedInEveryOrder(t, files, With(t, files, g));
    if With(t, files, g) != {} {
      var a :| a in With(t, files, g);
      AssetInOrders(t, files, a);
    }
  }

  lemma SignatureByAsset(t: Tables, files: Files, order: seq<Uid>, g: Uid)
    requires forall a :: a in t.assets ==> a !in t.res
    ensures g in Signatures(t, files, order) <==> ListsOne(t, files, order, With(t, files, g))
  {
    hide Signatures, Candidate, ListsSignature;
    SignaturesMeans(t, files, order, g);
    if g in Signatures(t, files, order) {
      var i, a :| 0 <= i < |order| && a in t.assets && t.assets[a].signature == g
                  && ListsSignature(t, files, order, i, a);
      assert Lists(t, files, order, a);
      ListedIsCandidate(t, files, order, a);
    }
  }

  // ---------------------------------------------------------------- two orders that differ

  const UPPER: Uid := 0x300_0000_0000
  const LOWER: Uid := 0x300_0000_0001

  /** Two files, the upper one requiring the lower one. */
  function TwoRows(): Tables {
    Tables(map[UPPER := Res(1, "a"), LOWER := Res(1, "b")], map[], {}, {(UPPER, LOWER)})
  }

  lemma TwoRowsConsistent()
    ensures Consistent(TwoRows())
  {
    OneEdgeReach(UPPER, LOWER);
    hide Reach;
    assert IsAResource(UPPER) && IsAResource(LOWER);
    hide IsAResource;
  }

  lemma TwoOrders(t: Tables, u: Uid, v: Uid)
    requires t.res.Keys == {u, v} && u != v
    ensures IsOrder(t, [u, v]) && IsOrder(t, [v, u])
  {
    assert Rows([u, v]) == {u, v} && Rows([v, u]) == {u, v};
  }

  /** With both files gone, the lower one is listed when the upper one's row comes first, and otherwise not. */
  lemma OrderMatters()
    ensures Consistent(TwoRows()) && IsOrder(TwoRows(), [UPPER, LOWER]) && IsOrder(TwoRows(), [LOWER, UPPER])
    ensures LOWER in Useless(TwoRows(), map[], [UPPER, LOWER])
    ensures LOWER !in Useless(TwoRows(), map[], [LOWER, UPPER])
  {
    TwoRowsConsistent();
    TwoOrders(TwoRows(), UPPER, LOWER);
    OneEdgeReach(UPPER, LOWER);
    var t := TwoRows();
    assert ChangedRow(t, map[], UPPER) && ChangedRow(t, map[], LOWER);
    assert Reach(t.deps, UPPER, LOWER) && !Reach(t.deps, LOWER, LOWER) && !Reach(t.deps, UPPER, UPPER);
    hide Reach, Useless, Consistent, IsOrder, ChangedRow, TwoRows, UPPER, LOWER;
    UpperFirst(t, UPPER, LOWER);
    LowerFirst(t, UPPER, LOWER);
  }

  lemma UpperFirst(t: Tables, u: Uid, v: Uid)
    requires ChangedRow(t, map[], u) && Reach(t.deps, u, v)
    ensures v in Useless(t, map[], [u, v])
  {
    hide Reach, Useless, ChangedRow;
    UselessMeans(t, map[], [u, v], v);
    assert ListsUseless(t, map[], [u, v], 0, v);
  }

  lemma LowerFirst(t: Tables, u: Uid, v: Uid)
    requires ChangedRow(t, map[], v) && Reach(t.deps, u, v) && !Reach(t.deps, v, v)
    ensures v !in Useless(t, map[], [v, u])
  {
    hide Reach, Useless, ChangedRow;
    var order := [v, u];
    UselessMeans(t, map[], order, v);
    assert order[0] == v && GoneBefore(t, map[], order, 1, u);
  }

  const FILE: Uid := 0x100_0000_0000
  const ASSET: Uid := 0x100_0000_0000_0000

  /** An asset that requires a file other than the one that declares it. */
  function AssetAndRows(): Tables {
    Tables(map[FILE := Res(1, "a"), LOWER := Res(1, "b")], map[ASSET := Asset(FILE, 7)], {}, {(ASSET, LOWER)})
  }

  lemma AssetConsistent()
    ensures Consistent(AssetAndRows())
  {
    OneEdgeReach(ASSET, LOWER);
    hide Reach;
    assert IsAResource(FILE) && IsAResource(LOWER) && IsGosassetD(FILE) && !IsAResource(ASSET) && IsAnAsset(ASSET);
    hide IsAResource, IsAnAsset, IsGosassetD;
  }

  /** With both files gone, its signature is listed unless the row of the declaring file comes first. */
  lemma OrderMattersForSignatures()
    ensures Consistent(AssetAndRows())
    ensures IsOrder(AssetAndRows(), [LOWER, FILE]) && IsOrder(AssetAndRows(), [FILE, LOWER])
    ensures 7 in Signatures(AssetAndRows(), map[], [LOWER, FILE])
    ensures 7 !in Signatures(AssetAndRows(), map[], [FILE, LOWER])
  {
    AssetConsistent();
    TwoOrders(AssetAndRows(), FILE, LOWER);
    OneEdgeReach(ASSET, LOWER);
    var t := AssetAndRows();
    assert ChangedRow(t, map[], FILE) && ChangedRow(t, map[], LOWER) && t.assets == map[ASSET := Asset(FILE, 7)];
    assert Reach(t.deps, ASSET, LOWER) && !Reach(t.deps, ASSET, FILE) && FILE in t.res;
    hide Reach, Signatures, Consistent, IsOrder, ChangedRow, AssetAndRows, ASSET, FILE, LOWER;
    RequiredFirst(t, FILE, LOWER, ASSET, 7);
    FileFirst(t, FILE, LOWER, ASSET, 7);
  }

  lemma RequiredFirst(t: Tables, f: Uid, v: Uid, a: Uid, g: Uid)
    requires t.assets == map[a := Asset(f, g)] && f in t.res && ChangedRow(t, map[], v) && Reach(t.deps, a, v)
    ensures g in Signatures(t, map[], [v, f])
  {
    hide Reach, Signatures, ChangedRow;
    SignaturesMeans(t, map[], [v, f], g);
    assert ListsSignature(t, map[], [v, f], 0, a);
  }

  lemma FileFirst(t: Tables, f: Uid, v: Uid, a: Uid, g: Uid)
    requires t.assets == map[a := Asset(f, g)] && ChangedRow(t, map[], f) && !Reach(t.deps, a, f)
    ensures g !in Signatures(t, map[], [f, v])
  {
    hide Reach, Signatures, ChangedRow;
    var order := [f, v];
    SignaturesMeans(t, map[], order, g);
    assert order[0] == f && GoneBefore(t, map[], order, 1, f);
  }

  lemma OneEdgeReach(u: Uid, v: Uid)
    requires u != v
    ensures forall a, b :: Reach({(u, v)}, a, b) <==> a == u && b == v
  {
    ReachOne({(u, v)}, u, v);
    forall a, b | Reach({(u, v)}, a, b)
      ensures a == u && b == v
    {
      var n: nat :| ReachIn({(u, v)}, a, b, n);
      OnlyOneStep(u, v, a, b, n);
    }
  }

  lemma {:induction false} OnlyOneStep(u: Uid, v: Uid, a: Uid, b: Uid, n: nat)
    requires u != v && ReachIn({(u, v)}, a, b, n)
    ensures n == 0 && a == u && b == v
  {
  }
}
