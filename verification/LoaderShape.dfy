/** Tables without cycles, in which every asset has its resource, and what the engine's steps do to
    them. */
module LoaderShape {
  import opened Arith
  import opened LoaderProtocol
  import opened LoaderSteps
  import opened LoaderWays

  /** No cycles: every child is lower than its parent. */
  ghost predicate Shape(res: Table, rank: map<Id, nat>) {
    && (forall p :: p in res ==> p in rank)
    && forall p, c :: p in res && c in res[p].children ==> c in rank && rank[c] < rank[p]
  }

  /** Every asset has its one resource. */
  ghost predicate AssetsWhole(res: Table) {
    forall p :: p in res && res[p].uid == AssetUid && res[p].status != Deleting ==> |res[p].children| == 1
  }

  /** All but `d` have theirs. */
  ghost predicate OthersWhole(res: Table, d: Id) {
    forall p :: p in res && p != d && res[p].uid == AssetUid && res[p].status != Deleting ==> |res[p].children| == 1
  }

  lemma ShapeNew(res: Table, rank: map<Id, nat>, d: Id, r: Res)
    requires Shape(res, rank) && ChildrenExist(res) && d !in res && r.children == []
    ensures Shape(res[d := r], rank[d := 0])
  {
  }

  lemma PutTwice<V>(m: map<Id, V>, d: Id, a: V, b: V)
    ensures m[d := a][d := b] == m[d := b]
  {
  }

  lemma CreateIs(s: State, uid: Uid)
    ensures Enabled(s, Step.Create(uid)) && Next(s, Step.Create(uid)) == Created(s, uid)
    ensures Created(s, uid)
            == s.(res := s.res[s.next := Res(uid, FirstStatus(uid), 1, [])],
            holders := s.holders[s.next := multiset{Client}], next := s.next + 1)
  {
  }

  lemma IncIs(s: State, d: Id)
    requires d in s.res && d in s.holders && s.res[d].status != Deleting
    ensures Enabled(s, Step.IncRef(d)) && Next(s, Step.IncRef(d)) == Held(s, d, Client)
  {
  }

  lemma ScheduleIs(s: State, d: Id)
    requires d in s.res && d in s.holders && s.res[d].status == Unloaded
    ensures Enabled(s, Schedule(d)) && Next(s, Schedule(d)) == Scheduled(s, d)
    ensures var r := s.res[d].(status := Loading, refCount := s.res[d].refCount + 1);
            Scheduled(s, d)
            == s.(res := s.res[d := r], holders := s.holders[d := s.holders[d] + multiset{Loader}],
            toLoader := s.toLoader + [Load(d)], loads := s.loads + multiset{d})
            && Asked(s.res, s.res[d := r], iset{d})
  {
  }

  lemma AssetIs(s: State, child: Id)
    requires s.next !in s.res && child in s.res && child in s.holders
    requires Client in s.holders[child] && s.next !in s.holders
    ensures var d, u := s.next, Created(s, AssetUid);
            d in u.res && child in u.holders && child in u.res && Client in u.holders[child]
            && WithChildren(Moved(u, child, Client, Parent(d)), d, [child]).res
               == s.res[d := Res(AssetUid, Ready, 1, [child])]
            && [child] + u.res[d].children == [child]
  {
  }

  lemma ShapeAsset(res: Table, rank: map<Id, nat>, d: Id, child: Id)
    requires Shape(res, rank) && ChildrenExist(res) && d !in res && child in res
    ensures child in rank && child != d
    ensures Shape(res[d := Res(AssetUid, Ready, 1, [child])], rank[d := rank[child] + 1])
  {
  }

  lemma ShapeAdd(res: Table, rank: map<Id, nat>, p: Id, children: seq<Id>, c: Id)
    requires Shape(res, rank) && p in res && c in res && rank[c] < rank[p]
    requires children == [c] + res[p].children
    ensures Shape(res[p := res[p].(children := children)], rank)
  {
  }

  /** Fewer descriptors, fewer children. */
  ghost predicate Thinner(res: Table, res': Table) {
    && res'.Keys <= res.Keys
    && forall p :: p in res' ==>
                     && (forall c :: c in res'[p].children ==> c in res[p].children)
                     && res'[p].uid == res[p].uid
                     && (res'[p].status != Deleting ==>
                           res[p].status != Deleting && res'[p].children == res[p].children)
  }

  lemma ShapeThinner(res: Table, res': Table, rank: map<Id, nat>)
    requires Shape(res, rank) && Thinner(res, res')
    ensures Shape(res', rank)
  {
  }

  lemma WholeThinner(res: Table, res': Table, d: Id)
    requires Thinner(res, res')
    ensures AssetsWhole(res) ==> AssetsWhole(res')
    ensures OthersWhole(res, d) ==> OthersWhole(res', d)
  {
  }

  lemma ShapeFewer(res: Table, rank: map<Id, nat>, p: Id, children: seq<Id>)
    requires Shape(res, rank) && p in res && forall c :: c in children ==> c in res[p].children
    ensures Shape(res[p := res[p].(children := children)], rank)
  {
  }

  lemma WithoutFewer(q: seq<Id>, x: Id)
    requires x in q
    ensures forall c :: c in Without(q, x) ==> c in q
  {
  }

  /** What is gone is no higher than `n`. */
  ghost predicate OnlyBelow(res: Table, res': Table, rank: map<Id, nat>, n: nat) {
    res'.Keys <= res.Keys && forall e :: e in res && e !in res' ==> e in rank && rank[e] <= n
  }

  lemma BelowTwice(res: Table, mid: Table, res': Table, rank: map<Id, nat>, n: nat, m: nat)
    requires OnlyBelow(res, mid, rank, n) && OnlyBelow(mid, res', rank, m) && m <= n
    ensures OnlyBelow(res, res', rank, n)
  {
  }

  lemma BelowKeeps(res: Table, res': Table, rank: map<Id, nat>, n: nat)
    requires res'.Keys == res.Keys
    ensures OnlyBelow(res, res', rank, n)
  {
  }

  /** A smaller set of what is not being deleted. */
  lemma ActiveLess(res: Table, res': Table)
    requires Thinner(res, res')
    ensures Active(res') <= Active(res) && |Active(res')| <= |Active(res)|
    ensures (exists d :: d in Active(res) && d !in Active(res')) ==> |Active(res')| < |Active(res)|
  {
    assert Active(res') <= Active(res);
    hide Active, Thinner;
    SubsetSize(Active(res'), Active(res));
  }

  lemma SubsetSize(a: set<Id>, b: set<Id>)
    requires a <= b
    ensures |a| <= |b| && (a != b ==> |a| < |b|)
  {
    assert b == a + (b - a);
    if a != b { assert b - a != {}; }
  }

  /** What is not being deleted: a release makes it smaller before it goes on to the children. */
  ghost function Active(res: Table): set<Id> {
    set d | d in res && res[d].status != Deleting
  }

  lemma NextIsFreeHere(s: State)
    requires Inv(s)
    ensures s.next !in s.res && s.next !in s.holders
  {
    NextIsFree(s);
  }

  lemma NextIsNew(s: State)
    requires Inv(s)
    ensures s.next !in s.res && ChildrenExist(s.res)
  {
    NextIsFree(s);
  }

  lemma DropThins(s: State, d: Id)
    requires Enabled(s, DropRef(d))
    ensures Thinner(s.res, Dropped(s, d).res)
    ensures s.res[d].refCount == 1 && s.res[d].status != Deleting ==>
              d in Active(s.res) && d !in Active(Dropped(s, d).res)
  {
  }

  lemma RemoveThins(s: State, d: Id, c: Id)
    requires Enabled(s, RemoveChild(d, c)) && s.res[d].status == Deleting
    ensures var t := WithChildren(Moved(s, c, Parent(d), Client), d, Without(s.res[d].children, c));
            Thinner(s.res, t.res) && |t.res[d].children| < |s.res[d].children| && t.res[d].status == Deleting
            && WellFormed(s) == WellFormed(t)
  {
  }

  lemma ReleasedThins(s: State, t: State, d: Id)
    requires WellFormed(s) && WellFormed(t) && Released(s, t, d)
    ensures Thinner(s.res, t.res)
  {
  }

  lemma ChildIsLower(s: State, rank: map<Id, nat>, d: Id)
    requires Inv(s) && Shape(s.res, rank) && d in s.res && s.res[d].children != []
    ensures var c := s.res[d].children[0];
            c in s.res && c in s.holders && c != d && Enabled(s, RemoveChild(d, c))
            && c in rank && d in rank && rank[c] < rank[d]
  {
    hide Sides, Edges, Pins, Mail, LoadsOnce, Flight;
    assert s.res[d].children[0] in s.res[d].children;
  }

  /** A change of status and count only. */
  lemma ShapePut(res: Table, rank: map<Id, nat>, d: Id, r: Res)
    requires Shape(res, rank) && d in res && res[d].status != Deleting
    requires r.children == res[d].children && r.uid == res[d].uid
    ensures Shape(res[d := r], rank)
  {
  }

  lemma AssetChild(res: Table, d: Id)
    requires AssetsWhole(res) && d in res && res[d].uid == AssetUid && res[d].status != Deleting
    ensures |res[d].children| == 1
  {
  }

  lemma ChildThere(s: State, rank: map<Id, nat>, d: Id, i: nat)
    requires Inv(s) && Shape(s.res, rank) && d in s.res && i < |s.res[d].children|
    ensures var c := s.res[d].children[i];
            c in s.res && c in rank && d in rank && rank[c] < rank[d] && s.res[c].status != Deleting
  {
    hide Inv;
    var c := s.res[d].children[i];
    assert c in s.res[d].children;
    ChildHeld(s, d, c);
    PinsAt(s, c);
  }

  lemma ShapeAsked(res: Table, res': Table, rank: map<Id, nat>, wanted: iset<Id>)
    requires Shape(res, rank) && Asked(res, res', wanted)
    ensures Shape(res', rank) && (AssetsWhole(res) ==> AssetsWhole(res'))
  {
  }

  lemma DestroyThins(res: Table, d: Id)
    ensures Thinner(res, res - {d})
  {
  }

  lemma InRank(res: Table, rank: map<Id, nat>, d: Id)
    requires Shape(res, rank) && d in res
    ensures d in rank
  {
  }

  lemma DropKeeps(s: State, d: Id)
    ensures Dropped(s, d).res.Keys == s.res.Keys
  {
  }

  lemma BelowDestroyed(res: Table, rank: map<Id, nat>, d: Id)
    requires d in rank
    ensures OnlyBelow(res, res - {d}, rank, rank[d])
  {
  }

  // ---------------------------------------------------------------- an asset gets another resource

  /** Without its resource the asset has none, and the other assets have theirs. */
  lemma ChildTaken(s: State, u: State, asset: Id, c: Id)
    requires AssetsWhole(s.res) && asset in s.res && s.res[asset].uid == AssetUid && s.res[asset].status != Deleting
    requires s.res[asset].children == [c] && c in s.holders
    requires u == WithChildren(Moved(s, c, Parent(asset), Client), asset, Without(s.res[asset].children, c))
    ensures OthersWhole(u.res, asset) && asset in u.res && u.res[asset].children == []
    ensures u.res[asset].uid == AssetUid && u.res[asset].status == s.res[asset].status
    ensures c in u.holders && Client in u.holders[c] && (c in s.res ==> c in u.res)
  {
  }

  /** Releasing it leaves the asset alone, which is above it. */
  lemma ChildReleased(u: State, v: State, rank: map<Id, nat>, asset: Id, c: Id)
    requires WellFormed(u) && WellFormed(v) && Released(u, v, c) && asset in u.res && asset in rank && c in rank
    requires OnlyBelow(u.res, v.res, rank, rank[c]) && rank[c] < rank[asset] && OthersWhole(u.res, asset)
    ensures asset in v.res && v.res[asset].children == u.res[asset].children
    ensures v.res[asset].uid == u.res[asset].uid && v.res[asset].status == u.res[asset].status
    ensures OthersWhole(v.res, asset)
  {
    ReleasedThins(u, v, c);
    WholeThinner(u.res, v.res, asset);
  }

  lemma HeldKeepsWhole(s: State, n: Id, asset: Id)
    requires OthersWhole(s.res, asset) && n in s.res && n in s.holders && asset in s.res
    ensures var t := Held(s, n, Client);
            && OthersWhole(t.res, asset) && asset in t.res && n in t.res && n in t.holders && Client in t.holders[n]
            && t.res[asset].children == s.res[asset].children && t.res[asset].status == s.res[asset].status
            && t.res[asset].uid == s.res[asset].uid
  {
  }

  lemma CreatedKeepsWhole(s: State, asset: Id)
    requires OthersWhole(s.res, asset) && asset in s.res && s.next !in s.res
    ensures var t := Created(s, SignatureUid);
            && OthersWhole(t.res, asset) && asset in t.res && s.next in t.res && s.next in t.holders
            && Client in t.holders[s.next] && t.res[asset] == s.res[asset] && s.next != asset
  {
  }

  lemma ChildGiven(s: State, asset: Id, n: Id)
    requires OthersWhole(s.res, asset) && asset in s.res && n in s.holders && s.res[asset].children == []
    ensures var t := WithChildren(Moved(s, n, Client, Parent(asset)), asset, [n] + s.res[asset].children);
            && OthersWhole(t.res, asset) && asset in t.res && |t.res[asset].children| == 1
            && t.res[asset].uid == s.res[asset].uid && t.res[asset].status == s.res[asset].status
  {
  }

  lemma WholeMeans(res: Table, asset: Id)
    requires OthersWhole(res, asset) && asset in res && res[asset].uid == AssetUid && res[asset].status != Deleting
    ensures AssetsWhole(res) <==> |res[asset].children| == 1
  {
  }

  lemma DroppedOnly(s: State, d: Id)
    requires CanRelease(s, d) && s.res[d].refCount > 1
    ensures Dropped(s, d).res == s.res[d := s.res[d].(refCount := s.res[d].refCount - 1)]
  {
  }

  // ---------------------------------------------------------------- a resource is exchanged

  /** The asset has given its child `c` up. When somebody else holds the child nothing else happens; otherwise
      the child goes, with what is below it and nobody else holds. */
  ghost predicate LetGoOf(s: State, t: State, asset: Id, c: Id) {
    && asset in s.res && asset in t.res && c in s.res && c != asset
    && t.res[asset].(refCount := 0) == s.res[asset].(children := [], refCount := 0)
    && t.next == s.next && t.toLoader == s.toLoader && t.engineBatch == s.engineBatch
    && (s.res[c].refCount > 1 ==>
          t.res == s.res[asset := s.res[asset].(children := [])][c := s.res[c].(refCount := s.res[c].refCount - 1)])
    && (s.res[c].refCount == 1 ==> c !in t.res)
    && forall e :: e in t.res && e != asset ==>
                     e in s.res && t.res[e].(refCount := 0) == s.res[e].(refCount := 0)
  }

  lemma LetGoMeans(s: State, u: State, v: State, asset: Id, c: Id)
    requires asset in s.res && c in s.res && c != asset && s.res[asset].children == [c] && c in s.holders
    requires u == WithChildren(Moved(s, c, Parent(asset), Client), asset, Without(s.res[asset].children, c))
    requires WellFormed(u) && WellFormed(v) && Released(u, v, c) && asset in v.res
    requires u.res[c].refCount > 1 ==> v.res == u.res[c := u.res[c].(refCount := u.res[c].refCount - 1)]
    requires u.res[c].refCount == 1 ==> c !in v.res
    requires v.res[asset].children == []
    ensures LetGoOf(s, v, asset, c) && v.next == s.next
  {
  }

  ghost predicate InUse(res: Table, d: Id) {
    d in res && res[d].status != Deleting
  }

  function OneMore(r: Res): Res {
    r.(refCount := r.refCount + 1)
  }

  function Owning(res: Table, asset: Id, n: Id): Res
    requires asset in res
  {
    res[asset].(children := [n])
  }

  lemma KnownGiven(s: State, asset: Id, n: Id)
    requires asset in s.res && s.res[asset].children == [] && n in s.res && n in s.holders && n != asset
    ensures WithChildren(Moved(Held(s, n, Client), n, Client, Parent(asset)), asset, [n] + s.res[asset].children).res
            == s.res[n := OneMore(s.res[n])][asset := Owning(s.res, asset, n)]
  {
    assert [n] + [] == [n];
  }

  lemma NewGiven(s: State, asset: Id)
    requires asset in s.res && s.res[asset].children == [] && s.next !in s.res
    ensures var n := s.next;
            var t := Moved(Created(s, SignatureUid), n, Client, Parent(asset));
            WithChildren(t, asset, [n] + s.res[asset].children).res
            == s.res[n := Res(SignatureUid, Unloaded, 1, [])][asset := Owning(s.res, asset, n)]
  {
    assert [s.next] + [] == [s.next];
  }

  /** One list is the other without the first `x`. */
  ghost predicate FirstGone(list: seq<Id>, x: Id, left: seq<Id>) {
    exists i :: 0 <= i < |list| && list[i] == x && x !in list[..i] && left == list[..i] + list[i + 1..]
  }

  lemma WithoutFirst(list: seq<Id>, x: Id)
    requires x in list
    ensures FirstGone(list, x, Without(list, x))
  {
    FirstAt(list, x);
    var i := IndexOf(list, x);
    hide IndexOf;
    assert list[i] == x && x !in list[..i];
  }

  lemma {:induction false} FirstAt(list: seq<Id>, x: Id)
    ensures x !in list[..IndexOf(list, x)]
  {
    if list != [] && list[0] != x {
      FirstAt(list[1..], x);
      var i := IndexOf(list[1..], x);
      assert list[..i + 1] == [list[0]] + list[1..][..i];
    }
  }
}
