/** What releasing a descriptor and scheduling a load do to the whole table. */
module LoaderWays {
  import opened LoaderProtocol
  import opened LoaderSteps

  // ---------------------------------------------------------------- what a release does

  /** Everything but the table is as it was. */
  ghost predicate OnlyTable(s: State, t: State) {
    t == s.(res := t.res, holders := t.holders)
  }

  function One(b: bool): nat { if b then 1 else 0 }

  ghost predicate WellFormed(s: State) {
    s.holders.Keys == s.res.Keys
  }

  /** A descriptor that is still there: less one reference if it is `d`; what destroyed parents held
      is gone too, and a count that is zero now was zero before. */
  ghost predicate KeptOne(s: State, t: State, e: Id, less: nat)
    requires WellFormed(s) && WellFormed(t) && e in t.res
  {
    && e in s.res
    && t.res[e].children == s.res[e].children && t.res[e].uid == s.res[e].uid && t.res[e].status == s.res[e].status
    && t.holders[e][Client] + less == s.holders[e][Client] && t.holders[e][Loader] == s.holders[e][Loader]
    && (t.res[e].refCount == 0 ==> s.res[e].refCount == 0)
  }

  /** A descriptor that is gone: neither the loader nor any client but the caller held it. */
  ghost predicate GoneOne(s: State, e: Id, clients: nat)
    requires WellFormed(s) && e in s.res
  {
    s.res[e].status != Deleting && s.holders[e][Client] == clients && s.holders[e][Loader] == 0
  }

  /** A client gave up its reference of `d`: gone are those nobody held any more, all their parents
      being gone as well; all others are still there. */
  ghost predicate Released(s: State, t: State, d: Id)
    requires WellFormed(s) && WellFormed(t)
  {
    && OnlyTable(s, t)
    && (forall e :: e in t.res ==> KeptOne(s, t, e, One(e == d)))
    && (forall e :: e in s.res && e !in t.res ==> GoneOne(s, e, One(e == d)))
    && (forall e, p :: e in s.res && e !in t.res && p in s.res && e in s.res[p].children ==> p !in t.res)
  }

  /** The same while `d` itself is being deleted and still gives up its children. */
  ghost predicate Releasing(s: State, t: State, d: Id)
    requires WellFormed(s) && WellFormed(t)
  {
    && OnlyTable(s, t)
    && d in s.res && d in t.res && t.res[d].status == Deleting && GoneOne(s, d, 1)
    && (forall p :: p in s.res ==> d !in s.res[p].children)
    && (forall e :: e in t.res && e != d ==> KeptOne(s, t, e, 0))
    && (forall e :: e in s.res && e !in t.res ==> GoneOne(s, e, 0))
    && (forall e, p :: e in s.res && e !in t.res && p in s.res && e in s.res[p].children ==> p == d || p !in t.res)
  }

  lemma InvWellFormed(s: State)
    requires Inv(s)
    ensures WellFormed(s)
  {
    SameKeys(s);
  }

  lemma ReleasedAtOnce(s: State, d: Id)
    requires Inv(s) && Enabled(s, DropRef(d)) && s.res[d].refCount > 1
    ensures WellFormed(s) && WellFormed(Dropped(s, d)) && Released(s, Dropped(s, d), d)
  {
    hide Inv;
    InvWellFormed(s);
  }

  lemma ReleasingStart(s: State, d: Id)
    requires Inv(s) && Enabled(s, DropRef(d)) && s.res[d].refCount == 1
    ensures WellFormed(s) && WellFormed(Dropped(s, d)) && Releasing(s, Dropped(s, d), d)
  {
    hide Inv;
    PinsAt(s, d);
    InvWellFormed(s);
    LastHolder(s.holders[d]);
    OnlyClient(s, d);
    hide PinOk;
  }

  lemma LastHolder(m: multiset<Holder>)
    requires |m| == 1 && Client in m
    ensures m == multiset{Client}
  {
    Counted(m, Client);
    assert m - multiset{Client} == multiset{};
    assert m == (m - multiset{Client}) + multiset{Client};
  }

  lemma OnlyClient(s: State, d: Id)
    requires Inv(s) && d in s.res && d in s.holders && s.holders[d] == multiset{Client}
    ensures forall p :: p in s.res ==> d !in s.res[p].children
    ensures s.res[d].status != Deleting
  {
    hide Sides, Mail, LoadsOnce, Flight;
    forall p | p in s.res
      ensures d !in s.res[p].children
    {
      assert s.holders[d][Parent(p)] == 0;
    }
  }

  lemma ReleasingOne(s: State, u: State, v: State, t: State, d: Id, c: Id)
    requires WellFormed(s) && WellFormed(u) && WellFormed(v) && WellFormed(t)
    requires Releasing(s, u, d) && c != d && c in u.res && Enabled(u, RemoveChild(d, c))
    requires v == Next(u, RemoveChild(d, c)) && Released(v, t, c)
    ensures Releasing(s, t, d)
  {
    hide Without;
    ReleasingKept(s, u, v, t, d, c);
    ReleasingGone(s, u, v, t, d, c);
    ReleasingParents(s, u, v, t, d, c);
  }

  lemma ReleasingKept(s: State, u: State, v: State, t: State, d: Id, c: Id)
    requires WellFormed(s) && WellFormed(u) && WellFormed(v) && WellFormed(t)
    requires Releasing(s, u, d) && c != d && c in u.res && Enabled(u, RemoveChild(d, c))
    requires v == Next(u, RemoveChild(d, c)) && Released(v, t, c)
    ensures forall e :: e in t.res && e != d ==> KeptOne(s, t, e, 0)
    ensures d in t.res && t.res[d].status == Deleting
  {
    hide Without;
    DeletingStays(v, t, d, c);
    hide KeptOne;
    forall e | e in t.res && e != d
      ensures KeptOne(s, t, e, 0)
    {
      assert KeptOne(v, t, e, One(e == c));
      KeptThrough(s, u, v, t, e, d, c);
    }
  }

  lemma DeletingStays(v: State, t: State, d: Id, c: Id)
    requires WellFormed(v) && WellFormed(t) && Released(v, t, c) && d in v.res && v.res[d].status == Deleting
    ensures d in t.res && t.res[d].status == Deleting
  {
  }

  /** One descriptor through the removal of a child and the child's release. */
  lemma KeptThrough(s: State, u: State, v: State, t: State, e: Id, d: Id, c: Id)
    requires WellFormed(s) && WellFormed(u) && WellFormed(v) && WellFormed(t) && e in t.res && e != d
    requires c in u.res && Enabled(u, RemoveChild(d, c)) && v == Next(u, RemoveChild(d, c))
    requires KeptOne(v, t, e, One(e == c)) && (e in u.res ==> KeptOne(s, u, e, 0))
    ensures KeptOne(s, t, e, 0)
  {
    hide Without;
  }

  lemma ReleasingGone(s: State, u: State, v: State, t: State, d: Id, c: Id)
    requires WellFormed(s) && WellFormed(u) && WellFormed(v) && WellFormed(t)
    requires Releasing(s, u, d) && c != d && c in u.res && Enabled(u, RemoveChild(d, c))
    requires v == Next(u, RemoveChild(d, c)) && Released(v, t, c)
    ensures forall e :: e in s.res && e !in t.res ==> GoneOne(s, e, 0)
  {
    hide Without;
  }

  lemma ReleasingParents(s: State, u: State, v: State, t: State, d: Id, c: Id)
    requires WellFormed(s) && WellFormed(u) && WellFormed(v) && WellFormed(t)
    requires Releasing(s, u, d) && c != d && c in u.res && Enabled(u, RemoveChild(d, c))
    requires v == Next(u, RemoveChild(d, c)) && Released(v, t, c)
    ensures forall e, p :: e in s.res && e !in t.res && p in s.res && e in s.res[p].children ==> p == d || p !in t.res
  {
    hide Without;
  }

  lemma ReleasingEnd(s: State, t: State, d: Id)
    requires WellFormed(s) && WellFormed(t) && Releasing(s, t, d)
    ensures WellFormed(Destroyed(t, d)) && Released(s, Destroyed(t, d), d)
  {
  }

  // ---------------------------------------------------------------- what scheduling does

  /** The recursion goes through what is neither ready nor in error. */
  predicate IsReady(r: Res, notReady: map<Id, nat>, d: Id) {
    r.status == Ready && (d !in notReady || notReady[d] == 0)
  }

  predicate Visited(res: map<Id, Res>, notReady: map<Id, nat>, d: Id) {
    d in res && !IsReady(res[d], notReady, d) && res[d].status != Error
  }

  /** `e` is `n` visited children below `d`, `d` and `e` included. */
  ghost predicate Path(res: map<Id, Res>, notReady: map<Id, nat>, d: Id, e: Id, n: nat)
    decreases n
  {
    Visited(res, notReady, d)
    && if n == 0 then d == e else exists c :: c in res[d].children && Path(res, notReady, c, e, n - 1)
  }

  ghost predicate Below(res: map<Id, Res>, notReady: map<Id, nat>, d: Id, e: Id) {
    exists n: nat :: Path(res, notReady, d, e, n)
  }

  /** Below one of the first `i` children. */
  ghost predicate BelowChild(res: map<Id, Res>, notReady: map<Id, nat>, d: Id, e: Id, i: nat)
    requires d in res && i <= |res[d].children|
  {
    exists j :: 0 <= j < i && Below(res, notReady, res[d].children[j], e)
  }

  lemma BelowUnfolds(res: map<Id, Res>, notReady: map<Id, nat>, d: Id, e: Id)
    requires d in res
    ensures Below(res, notReady, d, e) <==>
            Visited(res, notReady, d) && (d == e || BelowChild(res, notReady, d, e, |res[d].children|))
  {
    if Below(res, notReady, d, e) && d != e {
      var n: nat :| Path(res, notReady, d, e, n);
      var c :| c in res[d].children && Path(res, notReady, c, e, n - 1);
      var j :| 0 <= j < |res[d].children| && res[d].children[j] == c;
      assert Below(res, notReady, c, e);
    }
    if Visited(res, notReady, d) && d == e {
      assert Path(res, notReady, d, e, 0);
    }
    if Visited(res, notReady, d) && BelowChild(res, notReady, d, e, |res[d].children|) {
      var j :| 0 <= j < |res[d].children| && Below(res, notReady, res[d].children[j], e);
      var n: nat :| Path(res, notReady, res[d].children[j], e, n);
      var c := res[d].children[j];
      assert c in res[d].children && Path(res, notReady, c, e, n + 1 - 1);
      assert Path(res, notReady, d, e, n + 1);
    }
  }

  /** Two tables through which the recursion goes the same way. */
  ghost predicate SameWays(res: map<Id, Res>, res': map<Id, Res>) {
    && res.Keys == res'.Keys
    && forall e :: e in res ==>
                     && res[e].children == res'[e].children && res[e].uid == res'[e].uid
                     && (res'[e].status == res[e].status || (res[e].status == Unloaded && res'[e].status == Loading))
  }

  lemma {:induction false} SamePath(res: map<Id, Res>, res': map<Id, Res>, notReady: map<Id, nat>, d: Id, e: Id, n: nat)
    requires SameWays(res, res')
    ensures Path(res, notReady, d, e, n) == Path(res', notReady, d, e, n)
    decreases n
  {
    if n > 0 && d in res {
      forall c | c in res[d].children
        ensures Path(res, notReady, c, e, n - 1) == Path(res', notReady, c, e, n - 1)
      {
        SamePath(res, res', notReady, c, e, n - 1);
      }
    }
  }

  lemma SameBelow(res: map<Id, Res>, res': map<Id, Res>, notReady: map<Id, nat>)
    requires SameWays(res, res')
    ensures forall d, e :: Below(res, notReady, d, e) == Below(res', notReady, d, e)
  {
    forall d, e
      ensures Below(res, notReady, d, e) == Below(res', notReady, d, e)
    {
      forall n: nat ensures Path(res, notReady, d, e, n) == Path(res', notReady, d, e, n) {
        SamePath(res, res', notReady, d, e, n);
      }
    }
  }

  /** Exactly the unloaded ones among `wanted` were asked for: they are loading, with one reference
      more. */
  ghost predicate Asked(res: map<Id, Res>, res': map<Id, Res>, wanted: iset<Id>) {
    && res.Keys == res'.Keys
    && forall e :: e in res ==>
                     res'[e] == if e in wanted && res[e].status == Unloaded
                                then res[e].(status := Loading, refCount := res[e].refCount + 1) else res[e]
  }

  lemma AskedTwice(res: map<Id, Res>, mid: map<Id, Res>, res': map<Id, Res>, a: iset<Id>, b: iset<Id>)
    requires Asked(res, mid, a) && Asked(mid, res', b)
    ensures Asked(res, res', a + b)
  {
  }

  lemma AskedSameWays(res: map<Id, Res>, res': map<Id, Res>, a: iset<Id>)
    requires Asked(res, res', a)
    ensures SameWays(res, res')
  {
  }

  /** The set the recursion visits from `d`. */
  ghost function Under(res: map<Id, Res>, notReady: map<Id, nat>, d: Id): iset<Id> {
    iset e: Id | Below(res, notReady, d, e)
  }

  ghost function UnderChildren(res: map<Id, Res>, notReady: map<Id, nat>, d: Id, i: nat): iset<Id>
    requires d in res && i <= |res[d].children|
  {
    iset e: Id | BelowChild(res, notReady, d, e, i)
  }

  lemma UnderIs(res: map<Id, Res>, notReady: map<Id, nat>, d: Id)
    requires d in res
    ensures Under(res, notReady, d) == if Visited(res, notReady, d)
                                       then iset{d} + UnderChildren(res, notReady, d, |res[d].children|) else iset{}
  {
    hide Below, BelowChild, Visited;
    forall e { BelowUnfolds(res, notReady, d, e); }
  }

  lemma UnderMore(res: map<Id, Res>, notReady: map<Id, nat>, d: Id, i: nat)
    requires d in res && i < |res[d].children|
    ensures UnderChildren(res, notReady, d, i + 1)
            == UnderChildren(res, notReady, d, i) + Under(res, notReady, res[d].children[i])
  {
    hide Below;
  }

  lemma UnderZero(res: map<Id, Res>, notReady: map<Id, nat>, d: Id)
    requires d in res
    ensures UnderChildren(res, notReady, d, 0) == iset{}
  {
  }

  lemma SameUnder(res: map<Id, Res>, res': map<Id, Res>, notReady: map<Id, nat>)
    requires SameWays(res, res')
    ensures forall d :: Under(res, notReady, d) == Under(res', notReady, d)
  {
    hide Below;
    SameBelow(res, res', notReady);
  }

  lemma NotVisited(res: map<Id, Res>, notReady: map<Id, nat>, d: Id)
    requires d in res
    ensures IsReady(res[d], notReady, d) || res[d].status == Error ==> Under(res, notReady, d) == iset{}
    ensures !(IsReady(res[d], notReady, d) || res[d].status == Error) ==> Visited(res, notReady, d)
  {
  }

  lemma AskedNothing(res: map<Id, Res>)
    ensures Asked(res, res, iset{})
  {
  }

  /** What is not waiting to be loaded can be counted among the wanted. */
  lemma AskedAnyway(res: map<Id, Res>, res': map<Id, Res>, wanted: iset<Id>, d: Id)
    requires Asked(res, res', wanted) && d in res' && res'[d].status != Unloaded
    ensures Asked(res, res', iset{d} + wanted)
  {
  }

  lemma AskedKeeps(res: map<Id, Res>, res': map<Id, Res>, d: Id, wanted: iset<Id>)
    requires Asked(res, res', wanted) && d in res
    ensures d in res' && res'[d].children == res[d].children && res'[d].uid == res[d].uid
    ensures res'[d].status != res[d].status ==> res'[d].status == Loading && res[d].status == Unloaded
    ensures d in wanted ==> res'[d].status != Unloaded
  {
  }

  /** Load messages, one for every descriptor asked for, are queued after what was queued; nothing
      else moves. */
  ghost predicate Sent(s: State, t: State) {
    && SameWays(s.res, t.res)
    && s.toLoader <= t.toLoader
    && t.toEngine == s.toEngine && t.engineBatch == s.engineBatch && t.loaderBatch == s.loaderBatch
    && (forall i :: |s.toLoader| <= i < |t.toLoader| ==> SentOne(s.res, t.res, t.toLoader[i]))
    && (forall e :: e in s.res && e in t.res && s.res[e].status == Unloaded && t.res[e].status == Loading ==>
                      Load(e) in t.toLoader[|s.toLoader|..])
    && forall i, j :: |s.toLoader| <= i < j < |t.toLoader| ==> t.toLoader[i] != t.toLoader[j]
  }

  ghost predicate SentOne(res: map<Id, Res>, res': map<Id, Res>, m: Msg) {
    m.Load? && m.descr in res && m.descr in res' && res[m.descr].status == Unloaded && res'[m.descr].status == Loading
  }

  lemma SentNothing(s: State)
    ensures Sent(s, s)
  {
  }

  lemma SentTwice(s: State, u: State, t: State)
    requires Sent(s, u) && Sent(u, t)
    ensures Sent(s, t)
  {
    var a, b := |s.toLoader|, |u.toLoader|;
    forall i | a <= i < |t.toLoader|
      ensures SentOne(s.res, t.res, t.toLoader[i])
    {
      if i < b { assert t.toLoader[i] == u.toLoader[i]; }
    }
    assert t.toLoader[a..] == u.toLoader[a..] + t.toLoader[b..];
    forall e | e in s.res && e in t.res && s.res[e].status == Unloaded && t.res[e].status == Loading
      ensures Load(e) in t.toLoader[a..]
    {
      assert u.res[e].status == Unloaded || u.res[e].status == Loading;
    }
    forall i, j | a <= i < j < |t.toLoader|
      ensures t.toLoader[i] != t.toLoader[j]
    {
      if i < b {
        assert SentOne(s.res, u.res, u.toLoader[i]) && t.toLoader[i] == u.toLoader[i];
        if j >= b { assert SentOne(u.res, t.res, t.toLoader[j]); } else { assert t.toLoader[j] == u.toLoader[j]; }
      }
    }
  }

  lemma SentLoad(s: State, d: Id)
    requires d in s.res && d in s.holders && s.res[d].status == Unloaded
    ensures Sent(s, Scheduled(s, d))
  {
  }
}
