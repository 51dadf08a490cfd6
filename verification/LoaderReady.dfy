/** What the engine answers and asks for when it is asked to load, said without the recursion: with right
    counts, ready means that everything below is, and what is unloaded is asked for along every way that is
    not barred by an error. */
module LoaderReady {
  import opened LoaderProtocol
  import opened LoaderSteps
  import opened LoaderWays
  import R = Readiness

  function CountOf(notReady: map<Id, nat>, d: Id): nat {
    if d in notReady then notReady[d] else 0
  }

  /** The engine's table and counts are those of `t`, where every count is right. */
  ghost predicate TrueCounts(res: map<Id, Res>, notReady: map<Id, nat>, t: R.Nodes, rank: map<Id, nat>, top: nat) {
    && t.Keys == res.Keys && R.Mutual(t) && R.Ranked(t, rank, top) && R.CountsRight(t)
    && forall d :: d in res ==>
                     t[d].status == res[d].status && t[d].children == res[d].children
                     && t[d].notReady == CountOf(notReady, d)
  }

  /** From `d` down to `e` in `n` steps, past nothing that is in error. */
  ghost predicate ClearPath(res: map<Id, Res>, d: Id, e: Id, n: nat)
    decreases n
  {
    && d in res && res[d].status != Error
    && if n == 0 then d == e else exists c :: c in res[d].children && ClearPath(res, c, e, n - 1)
  }

  ghost predicate ClearWay(res: map<Id, Res>, d: Id, e: Id) {
    exists n: nat :: ClearPath(res, d, e, n)
  }

  lemma ReadyAnswer(res: map<Id, Res>, notReady: map<Id, nat>, t: R.Nodes, rank: map<Id, nat>, top: nat, d: Id)
    requires TrueCounts(res, notReady, t, rank, top) && d in res
    ensures IsReady(res[d], notReady, d) <==> R.AllReady(t, rank, top, d)
  {
    hide R.Mutual, R.Ranked, R.CountsRight;
    R.ReadyMeans(t, rank, top, d);
  }

  /** On the way to something unloaded nothing is ready, so the recursion goes all the way. */
  lemma {:induction false} ClearVisits(res: map<Id, Res>, notReady: map<Id, nat>, t: R.Nodes, rank: map<Id, nat>,
                                       top: nat, d: Id, e: Id, n: nat)
    requires TrueCounts(res, notReady, t, rank, top) && e in res && res[e].status == Unloaded
    requires ClearPath(res, d, e, n)
    ensures Path(res, notReady, d, e, n) && d in t && !R.AllReady(t, rank, top, d)
    decreases n
  {
    hide R.Mutual, R.Ranked, R.CountsRight;
    if n > 0 {
      var c :| c in res[d].children && ClearPath(res, c, e, n - 1);
      ClearVisits(res, notReady, t, rank, top, c, e, n - 1);
    }
    ReadyAnswer(res, notReady, t, rank, top, d);
  }

  lemma {:induction false} VisitsClear(res: map<Id, Res>, notReady: map<Id, nat>, d: Id, e: Id, n: nat)
    requires Path(res, notReady, d, e, n)
    ensures ClearPath(res, d, e, n)
    decreases n
  {
    if n > 0 {
      var c :| c in res[d].children && Path(res, notReady, c, e, n - 1);
      VisitsClear(res, notReady, c, e, n - 1);
    }
  }

  lemma AskedWhere(res: map<Id, Res>, notReady: map<Id, nat>, t: R.Nodes, rank: map<Id, nat>, top: nat, d: Id, e: Id)
    requires TrueCounts(res, notReady, t, rank, top) && e in res && res[e].status == Unloaded
    ensures e in Under(res, notReady, d) <==> ClearWay(res, d, e)
  {
    hide TrueCounts;
    if n: nat :| ClearPath(res, d, e, n) {
      ClearVisits(res, notReady, t, rank, top, d, e, n);
    }
    if n: nat :| Path(res, notReady, d, e, n) {
      VisitsClear(res, notReady, d, e, n);
    }
  }

  /** The answer, and what is loading afterwards, when all counts are right. */
  ghost predicate Exactly(res: map<Id, Res>, res': map<Id, Res>, notReady: map<Id, nat>, d: Id, ready: bool,
                          t: R.Nodes, rank: map<Id, nat>, top: nat)
    requires d in res && res.Keys == res'.Keys && TrueCounts(res, notReady, t, rank, top)
  {
    && (ready <==> R.AllReady(t, rank, top, d))
    && forall e :: e in res && res[e].status == Unloaded ==> (res'[e].status == Loading <==> ClearWay(res, d, e))
  }

  lemma AnswerMeans(res: map<Id, Res>, res': map<Id, Res>, notReady: map<Id, nat>, d: Id, ready: bool)
    requires d in res && Asked(res, res', Under(res, notReady, d)) && ready == IsReady(res[d], notReady, d)
    ensures forall t, rank, top | TrueCounts(res, notReady, t, rank, top) ::
              Exactly(res, res', notReady, d, ready, t, rank, top)
  {
    hide Under, ClearWay, TrueCounts, IsReady;
    forall t, rank, top | TrueCounts(res, notReady, t, rank, top)
      ensures Exactly(res, res', notReady, d, ready, t, rank, top)
    {
      ReadyAnswer(res, notReady, t, rank, top, d);
      forall e | e in res && res[e].status == Unloaded
        ensures e in Under(res, notReady, d) <==> ClearWay(res, d, e)
      {
        AskedWhere(res, notReady, t, rank, top, d, e);
      }
    }
  }

  /** If it was unloaded it is loading now, and there is a message that asks for it, which there was not. */
  ghost predicate AskedNow(s: State, t: State, c: Id) {
    c in s.res && c in t.res && s.res[c].status == Unloaded ==>
      && t.res[c].status == Loading && Load(c) !in s.toLoader && Load(c) in t.toLoader
  }

  /** An asset is not ready before its resource, and asking for it asks for the resource. */
  lemma AssetAsks(s: State, t: State, notReady: map<Id, nat>, d: Id)
    requires Inv(s) && d in s.res && Asked(s.res, t.res, Under(s.res, notReady, d)) && Sent(s, t)
    ensures s.res[d].status == Ready && CountOf(notReady, d) > 0 ==>
              forall c :: c in s.res[d].children ==> AskedNow(s, t, c)
  {
    hide Inv, Under, Asked, Sent, AskedNow;
    forall c | s.res[d].status == Ready && CountOf(notReady, d) > 0 && c in s.res[d].children
      ensures AskedNow(s, t, c)
    {
      OneAsked(s, t, notReady, d, c);
    }
  }

  lemma OneAsked(s: State, t: State, notReady: map<Id, nat>, d: Id, c: Id)
    requires Inv(s) && d in s.res && Asked(s.res, t.res, Under(s.res, notReady, d)) && Sent(s, t)
    requires s.res[d].status == Ready && CountOf(notReady, d) > 0 && c in s.res[d].children
    ensures AskedNow(s, t, c)
  {
    hide Inv, Under;
    if c in s.res && s.res[c].status == Unloaded {
      NotAskedYet(s, c);
      ChildUnder(s.res, notReady, d, c);
      assert Load(c) in t.toLoader[|s.toLoader|..];
    }
  }

  lemma ChildUnder(res: map<Id, Res>, notReady: map<Id, nat>, d: Id, c: Id)
    requires d in res && c in res && Visited(res, notReady, d) && Visited(res, notReady, c) && c in res[d].children
    ensures c in Under(res, notReady, d)
  {
    hide Visited;
    assert Path(res, notReady, c, c, 0);
    assert c in res[d].children && Path(res, notReady, c, c, 1 - 1);
    assert Path(res, notReady, d, c, 1);
  }

  lemma NotAskedYet(s: State, c: Id)
    requires Inv(s) && c in s.res && s.res[c].status == Unloaded
    ensures Load(c) !in s.toLoader
  {
    hide Sides, Ledger, Edges, ChildrenExist, LoadsOnce;
    if Load(c) in s.toLoader {
      var i :| 0 <= i < |s.toLoader| && s.toLoader[i] == Load(c);
      HasNamed(s.toLoader, i);
    }
  }

  lemma {:induction false} HasNamed(q: seq<Msg>, i: nat)
    requires i < |q|
    ensures Named(q[i]) <= NamedIn(q)
    decreases i
  {
    if i > 0 {
      HasNamed(q[1..], i - 1);
    }
  }

  lemma KeysStay(res: map<Id, Res>, res': map<Id, Res>, wanted: iset<Id>)
    requires Asked(res, res', wanted)
    ensures res.Keys == res'.Keys
  {
  }
}
