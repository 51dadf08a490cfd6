/** Every step of the machine keeps the invariant; what follows for whole runs. */
module LoaderSteps {
  import opened Arith
  import opened LoaderProtocol

  type Table = map<Id, Res>
  type Holders = map<Id, multiset<Holder>>

  // ---------------------------------------------------------------- counts

  lemma LedgerPut(res: Table, holders: Holders, d: Id, r: Res, hs: multiset<Holder>)
    requires Ledger(res, holders) && r.refCount == |hs|
    ensures Ledger(res[d := r], holders[d := hs])
  {
  }

  /** Holders other than parents come and go without touching the edges, and so do changes of
      status and count. */
  lemma EdgesSame(res: Table, holders: Holders, d: Id, r: Res, hs: multiset<Holder>)
    requires Edges(res, holders) && d in res && d in holders && r.children == res[d].children
    requires forall p :: hs[Parent(p)] == holders[d][Parent(p)]
    ensures Edges(res[d := r], holders[d := hs])
  {
  }

  lemma ChildrenSame(res: Table, d: Id, r: Res)
    requires ChildrenExist(res) && d in res && r.children == res[d].children
    ensures ChildrenExist(res[d := r])
  {
  }

  /** A descriptor replaced by one that respects the rules. */
  ghost predicate PinOk(r: Res, hs: multiset<Holder>) {
    && hs[Loader] <= 1
    && (Loader in hs ==> r.status == Loading)
    && (r.status == Deleting ==> hs == multiset{})
    && (r.status == Unloaded ==> r.uid == SignatureUid && hs != multiset{})
  }

  lemma PinsPut(res: Table, holders: Holders, d: Id, r: Res, hs: multiset<Holder>)
    requires Pins(res, holders) && PinOk(r, hs)
    ensures Pins(res[d := r], holders[d := hs])
  {
  }

  /** The loader's reference of `d` stays as it was. */
  lemma MailSame(flight: multiset<Id>, failed: set<Id>, holders: Holders, d: Id, hs: multiset<Holder>)
    requires Mail(flight, failed, holders)
    requires Loader in hs <==> d in holders && Loader in holders[d]
    ensures Mail(flight, failed, holders[d := hs])
  {
  }

  lemma LoadsSame(res: Table, loads: multiset<Id>, next: Id, d: Id, r: Res)
    requires LoadsOnce(res, loads, next) && d in res && (r.status == Unloaded ==> res[d].status == Unloaded)
    ensures LoadsOnce(res[d := r], loads, next)
  {
  }

  // ---------------------------------------------------------------- the engine's own steps

  /** A client's reference more or less, without a deletion. */
  lemma PutOk(s: State, t: State, d: Id, r: Res, hs: multiset<Holder>)
    requires Inv(s) && d in s.res
    requires t == s.(res := s.res[d := r], holders := s.holders[d := hs])
    requires r.children == s.res[d].children && r.refCount == |hs| && PinOk(r, hs)
    requires forall p :: hs[Parent(p)] == s.holders[d][Parent(p)]
    requires Loader in hs <==> Loader in s.holders[d]
    requires r.status == Unloaded ==> s.res[d].status == Unloaded
    ensures Inv(t)
  {
    hide Ledger, Edges, ChildrenExist, Pins, Mail, LoadsOnce, Flight, PinOk;
    assert d in s.holders by { SameKeys(s); }
    LedgerPut(s.res, s.holders, d, r, hs);
    EdgesSame(s.res, s.holders, d, r, hs);
    ChildrenSame(s.res, d, r);
    PinsPut(s.res, s.holders, d, r, hs);
    MailSame(Flight(s), s.failed, s.holders, d, hs);
    LoadsSame(s.res, s.loads, s.next, d, r);
    assert Flight(t) == Flight(s) by { SameFlight(s, t); }
  }

  lemma SameKeys(s: State)
    requires Inv(s)
    ensures s.holders.Keys == s.res.Keys
  {
  }

  lemma SameFlight(s: State, t: State)
    requires t.toLoader == s.toLoader && t.loaderBatch == s.loaderBatch
    requires t.toEngine == s.toEngine && t.engineBatch == s.engineBatch
    ensures Flight(t) == Flight(s) && (Sides(s) ==> Sides(t))
  {
    hide NamedIn;
  }

  lemma PinsAt(s: State, d: Id)
    requires Inv(s) && d in s.res
    ensures d in s.holders && PinOk(s.res[d], s.holders[d]) && s.res[d].refCount == |s.holders[d]|
  {
    hide Mail, Edges, LoadsOnce, ChildrenExist, Flight;
  }

  lemma IncRefOk(s: State, d: Id)
    requires Inv(s) && Enabled(s, IncRef(d))
    ensures Inv(Next(s, IncRef(d)))
  {
    hide Inv, Flight;
    PinsAt(s, d);
    var hs := s.holders[d] + multiset{Client};
    PutOk(s, Held(s, d, Client), d, s.res[d].(refCount := s.res[d].refCount + 1), hs);
  }

  lemma DropRefOk(s: State, d: Id)
    requires Inv(s) && Enabled(s, DropRef(d))
    ensures Inv(Next(s, DropRef(d)))
  {
    hide Inv, Flight;
    PinsAt(s, d);
    var hs := s.holders[d] - multiset{Client};
    Counted(s.holders[d], Client);
    var r := s.res[d].(refCount := s.res[d].refCount - 1);
    if r.refCount == 0 {
      assert hs == multiset{};
      PutOk(s, Dropped(s, d), d, r.(status := Deleting), hs);
    } else {
      PutOk(s, Dropped(s, d), d, r, hs);
    }
  }

  lemma CreateOk(s: State, uid: Uid)
    requires Inv(s)
    ensures Inv(Created(s, uid))
  {
    hide Sides, Flight, Pins, Mail, Edges, ChildrenExist, Ledger, LoadsOnce;
    var d := s.next;
    var r := Res(uid, if uid == SignatureUid then Unloaded else Ready, 1, []);
    SameFlight(s, Created(s, uid));
    NextIsFree(s);
    LedgerPut(s.res, s.holders, d, r, multiset{Client});
    FreshEdges(s.res, s.holders, d, r, multiset{Client});
    PinsPut(s.res, s.holders, d, r, multiset{Client});
    MailSame(Flight(s), s.failed, s.holders, d, multiset{Client});
    FreshLoads(s, d, r);
  }

  lemma NextIsFree(s: State)
    requires Ledger(s.res, s.holders) && LoadsOnce(s.res, s.loads, s.next)
    ensures s.next !in s.res && s.next !in s.holders && s.next !in s.loads
  {
  }

  lemma FreshLoads(s: State, d: Id, r: Res)
    requires LoadsOnce(s.res, s.loads, d) && d == s.next
    ensures LoadsOnce(s.res[d := r], s.loads, d + 1)
  {
  }

  lemma FreshEdges(res: Table, holders: Holders, d: Id, r: Res, hs: multiset<Holder>)
    requires Edges(res, holders) && ChildrenExist(res) && d !in res && d !in holders
    requires r.children == [] && forall p :: hs[Parent(p)] == 0
    ensures Edges(res[d := r], holders[d := hs]) && ChildrenExist(res[d := r])
  {
    var res', holders' := res[d := r], holders[d := hs];
    forall e, p | e in holders'
      ensures holders'[e][Parent(p)] == if p in res' then multiset(res'[p].children)[e] else 0
    {
      if e != d && p == d {
        assert holders[e][Parent(p)] == 0;
      }
      if e == d && p in res {
        assert d !in res[p].children;
      }
    }
  }

  // ---------------------------------------------------------------- edges

  lemma WithoutCounts(q: seq<Id>, x: Id)
    requires x in q
    ensures multiset(Without(q, x)) == multiset(q) - multiset{x}
  {
    var i := IndexOf(q, x);
    assert q == q[..i] + [x] + q[i + 1..];
  }

  /** The children of `p` are replaced and one holder of `c` changes accordingly. */
  lemma EdgePut(res: Table, holders: Holders, p: Id, c: Id, children: seq<Id>, hs: multiset<Holder>)
    requires Edges(res, holders) && p in res && c in holders
    requires forall e :: e != c ==> multiset(children)[e] == multiset(res[p].children)[e]
    requires hs[Parent(p)] == multiset(children)[c]
    requires forall g :: g != p ==> hs[Parent(g)] == holders[c][Parent(g)]
    ensures Edges(res[p := res[p].(children := children)], holders[c := hs])
  {
  }

  lemma ChildrenPut(res: Table, p: Id, children: seq<Id>)
    requires ChildrenExist(res) && p in res && forall c :: c in children ==> c in res
    ensures ChildrenExist(res[p := res[p].(children := children)])
  {
  }

  lemma LedgerEdge(res: Table, holders: Holders, p: Id, c: Id, children: seq<Id>, hs: multiset<Holder>)
    requires Ledger(res, holders) && p in res && c in holders && |hs| == |holders[c]|
    ensures Ledger(res[p := res[p].(children := children)], holders[c := hs])
  {
  }

  lemma PinsEdge(res: Table, holders: Holders, p: Id, c: Id, children: seq<Id>, hs: multiset<Holder>)
    requires Pins(res, holders) && p in res && c in res && c in holders && holders.Keys == res.Keys
    requires hs[Loader] == holders[c][Loader] && |hs| == |holders[c]| && holders[c] != multiset{}
    ensures Pins(res[p := res[p].(children := children)], holders[c := hs])
  {
  }

  lemma LoadsEdge(res: Table, loads: multiset<Id>, next: Id, p: Id, children: seq<Id>)
    requires LoadsOnce(res, loads, next) && p in res
    ensures LoadsOnce(res[p := res[p].(children := children)], loads, next)
  {
  }

  /** A reference changes hands between a client and a parent. */
  lemma EdgeOk(s: State, t: State, p: Id, c: Id, children: seq<Id>, from: Holder, to: Holder)
    requires Inv(s) && p in s.res && c in s.res && c in s.holders
    requires from in s.holders[c] && from != Loader && to != Loader
    requires t == WithChildren(Moved(s, c, from, to), p, children)
    requires forall e :: e != c ==> multiset(children)[e] == multiset(s.res[p].children)[e]
    requires (s.holders[c] - multiset{from} + multiset{to})[Parent(p)] == multiset(children)[c]
    requires forall g :: g != p ==> from != Parent(g) && to != Parent(g)
    requires forall e :: e in children ==> e in s.res
    ensures Inv(t)
  {
    hide Sides, Flight, Pins, Mail, Edges, ChildrenExist, Ledger, LoadsOnce;
    var hs := s.holders[c] - multiset{from} + multiset{to};
    Counted(s.holders[c], from);
    SameKeys(s);
    LedgerEdge(s.res, s.holders, p, c, children, hs);
    EdgePut(s.res, s.holders, p, c, children, hs);
    ChildrenPut(s.res, p, children);
    PinsEdge(s.res, s.holders, p, c, children, hs);
    MailSame(Flight(s), s.failed, s.holders, c, hs);
    LoadsEdge(s.res, s.loads, s.next, p, children);
    SameFlight(s, t);
  }

  lemma ChildHeld(s: State, p: Id, c: Id)
    requires Inv(s) && p in s.res
    ensures c in s.holders ==> s.holders[c][Parent(p)] == multiset(s.res[p].children)[c]
    ensures c in s.res[p].children ==> c in s.res && c in s.holders && Parent(p) in s.holders[c]
    ensures forall e :: e in s.res[p].children ==> e in s.res
  {
    hide Mail, Pins, LoadsOnce, Flight;
  }

  lemma AddChildOk(s: State, p: Id, c: Id)
    requires Inv(s) && Enabled(s, AddChild(p, c))
    ensures Inv(Next(s, AddChild(p, c)))
  {
    hide Inv, Flight;
    ChildHeld(s, p, c);
    var q := s.res[p].children;
    assert forall e :: multiset([c] + q)[e] == multiset{c}[e] + multiset(q)[e];
    EdgeOk(s, Next(s, AddChild(p, c)), p, c, [c] + q, Client, Parent(p));
  }

  lemma RemoveChildOk(s: State, p: Id, c: Id)
    requires Inv(s) && Enabled(s, RemoveChild(p, c))
    ensures Inv(Next(s, RemoveChild(p, c)))
  {
    hide Inv, Flight, Without;
    ChildHeld(s, p, c);
    var q := s.res[p].children;
    WithoutCounts(q, c);
    assert forall e :: e in Without(q, c) ==> e in multiset(Without(q, c));
    EdgeOk(s, Next(s, RemoveChild(p, c)), p, c, Without(q, c), Parent(p), Client);
  }

  // ---------------------------------------------------------------- the end of a descriptor

  lemma DestroyOk(s: State, d: Id)
    requires Inv(s) && Enabled(s, Destroy(d))
    ensures Inv(Destroyed(s, d))
  {
    hide Sides, Flight, Pins, Mail, Edges, ChildrenExist, Ledger, LoadsOnce;
    SameFlight(s, Destroyed(s, d));
    PinsAt(s, d);
    NobodysChild(s, d);
    LedgerLess(s.res, s.holders, d);
    EdgesLess(s.res, s.holders, d);
    PinsLess(s.res, s.holders, d);
    MailLess(Flight(s), s.failed, s.holders, d);
    LoadsLess(s, d);
  }

  lemma LedgerLess(res: Table, holders: Holders, d: Id)
    requires Ledger(res, holders)
    ensures Ledger(res - {d}, holders - {d})
  {
  }

  lemma EdgesLess(res: Table, holders: Holders, d: Id)
    requires Edges(res, holders) && ChildrenExist(res) && d in res && res[d].children == []
    requires forall p :: p in res ==> d !in res[p].children
    ensures Edges(res - {d}, holders - {d}) && ChildrenExist(res - {d})
  {
  }

  lemma PinsLess(res: Table, holders: Holders, d: Id)
    requires Pins(res, holders)
    ensures Pins(res - {d}, holders - {d})
  {
  }

  lemma MailLess(flight: multiset<Id>, failed: set<Id>, holders: Holders, d: Id)
    requires Mail(flight, failed, holders) && d in holders && Loader !in holders[d]
    ensures Mail(flight, failed, holders - {d})
  {
  }

  lemma NobodysChild(s: State, d: Id)
    requires Inv(s) && d in s.res && d in s.holders && s.holders[d] == multiset{}
    ensures forall p :: p in s.res ==> d !in s.res[p].children
  {
    hide Mail, Pins, LoadsOnce, Flight;
    forall p | p in s.res
      ensures d !in s.res[p].children
    {
      assert s.holders[d][Parent(p)] == 0;
    }
  }

  lemma LoadsLess(s: State, d: Id)
    requires LoadsOnce(s.res, s.loads, s.next)
    ensures LoadsOnce(s.res - {d}, s.loads, s.next)
  {
  }

  // ---------------------------------------------------------------- messages

  lemma HeadOff(q: seq<Msg>)
    requires q != []
    ensures NamedIn(q) == Named(q[0]) + NamedIn(q[1..])
  {
  }

  /** The loader's reference and the message that carries it come together. */
  lemma MailSent(flight: multiset<Id>, failed: set<Id>, holders: Holders, d: Id, hs: multiset<Holder>)
    requires Mail(flight, failed, holders) && d in holders && Loader !in holders[d] && Loader in hs
    ensures Mail(flight + multiset{d}, failed, holders[d := hs])
  {
    assert forall e :: (flight + multiset{d})[e] == flight[e] + multiset{d}[e];
  }

  /** They go together. */
  lemma MailDone(flight: multiset<Id>, failed: set<Id>, holders: Holders, d: Id, hs: multiset<Holder>)
    requires Mail(flight, failed, holders) && d in flight && d in holders && Loader !in hs
    ensures Mail(flight - multiset{d}, failed, holders[d := hs])
  {
    assert forall e :: (flight - multiset{d})[e] == if e == d then flight[e] - 1 else flight[e];
  }

  /** After a failure the reference stays and no message carries it. */
  lemma MailLost(flight: multiset<Id>, failed: set<Id>, holders: Holders, d: Id)
    requires Mail(flight, failed, holders) && d in flight
    ensures Mail(flight - multiset{d}, failed + {d}, holders)
  {
    assert forall e :: (flight - multiset{d})[e] == if e == d then flight[e] - 1 else flight[e];
  }

  ghost predicate SameButMail(s: State, t: State) {
    t == s.(toLoader := t.toLoader, loaderBatch := t.loaderBatch, toEngine := t.toEngine, engineBatch := t.engineBatch,
            quit := t.quit)
  }

  /** Only queues and batches change, and what they name does not. */
  lemma OnlyMoved(s: State, t: State)
    requires Inv(s) && SameButMail(s, t)
    requires Flight(t) == Flight(s) && Sides(t)
    ensures Inv(t)
  {
    hide Sides, Flight, Pins, Mail, Edges, ChildrenExist, Ledger, LoadsOnce;
  }

  lemma ScheduleOk(s: State, d: Id)
    requires Inv(s) && Enabled(s, Schedule(d))
    ensures Inv(Scheduled(s, d))
  {
    hide Sides, Flight, Pins, Mail, Edges, ChildrenExist, Ledger, LoadsOnce;
    var r := s.res[d].(status := Loading, refCount := s.res[d].refCount + 1);
    var hs := s.holders[d] + multiset{Loader};
    PinsAt(s, d);
    var t := Scheduled(s, d);
    assert t.res == s.res[d := r];
    LedgerPut(s.res, s.holders, d, r, hs);
    EdgesSame(s.res, s.holders, d, r, hs);
    ChildrenSame(s.res, d, r);
    PinsPut(s.res, s.holders, d, r, hs);
    MailSent(Flight(s), s.failed, s.holders, d, hs);
    LoadsMore(s.res, s.loads, s.next, d, r);
    FlightSent(s, t, Load(d));
  }

  lemma LoadsMore(res: Table, loads: multiset<Id>, next: Id, d: Id, r: Res)
    requires LoadsOnce(res, loads, next) && d in res && res[d].status == Unloaded && r.status != Unloaded
    ensures LoadsOnce(res[d := r], loads + multiset{d}, next)
  {
    assert forall e :: (loads + multiset{d})[e] == loads[e] + multiset{d}[e];
  }

  lemma FlightSent(s: State, t: State, m: Msg)
    requires t.toLoader == s.toLoader + [m] && t.loaderBatch == s.loaderBatch
    requires t.toEngine == s.toEngine && t.engineBatch == s.engineBatch
    ensures Flight(t) == Flight(s) + Named(m) && (Sides(s) && ForLoader(m) ==> Sides(t))
  {
    hide NamedIn, Named;
    NamedPush(s.toLoader, m);
  }

  lemma PopOk(s: State)
    requires Inv(s)
    ensures s.engineBatch == [] ==> Inv(EnginePopped(s))
    ensures s.loaderBatch == [] ==> Inv(LoaderPopped(s))
  {
    hide Inv, Flight, Sides, EnginePopped, LoaderPopped;
    HeadSide(s);
    if s.engineBatch == [] {
      EnginePopFlight(s);
      OnlyMoved(s, EnginePopped(s));
    }
    if s.loaderBatch == [] {
      LoaderPopFlight(s);
      OnlyMoved(s, LoaderPopped(s));
    }
  }

  lemma EnginePopFlight(s: State)
    requires s.engineBatch == [] && Sides(s)
    ensures var t := EnginePopped(s);
            Flight(t) == Flight(s) && Sides(t)
            && SameButMail(s, t)
  {
    hide NamedIn, ForLoader;
    var n := Min(ENGINE_BATCH, |s.toEngine|);
    NamedSplit(s.toEngine, n);
    NothingNamed();
  }

  lemma LoaderPopFlight(s: State)
    requires s.loaderBatch == [] && Sides(s)
    ensures var t := LoaderPopped(s);
            Flight(t) == Flight(s) && Sides(t)
            && SameButMail(s, t)
  {
    hide NamedIn, ForLoader;
    var n := Min(LOADER_BATCH, |s.toLoader|);
    NamedSplit(s.toLoader, n);
    NothingNamed();
  }

  lemma NothingNamed()
    ensures NamedIn([]) == multiset{}
  {
  }

  lemma SendDieOk(s: State)
    requires Inv(s)
    ensures Inv(s.(toLoader := s.toLoader + [Die]))
  {
    hide Inv, Flight;
    var t := s.(toLoader := s.toLoader + [Die]);
    FlightSent(s, t, Die);
    HeadSide(s);
    OnlyMoved(s, t);
  }

  /** What is under way after the first message of a batch is handled and at most one is sent. */
  lemma FlightHandled(s: State, t: State, m: Msg, more: seq<Msg>)
    requires s.engineBatch != [] && m == s.engineBatch[0] && t.engineBatch == s.engineBatch[1..]
    requires t.toLoader == s.toLoader + more && |more| <= 1
    requires t.loaderBatch == s.loaderBatch && t.toEngine == s.toEngine
    ensures NamedIn(more) == Named(m) ==> Flight(t) == Flight(s)
    ensures NamedIn(more) == multiset{} ==> Flight(t) == Flight(s) - Named(m)
    ensures Sides(s) && (forall x :: x in more ==> ForLoader(x)) ==> Sides(t)
  {
    hide Named, ForLoader;
    HeadOff(s.engineBatch);
    NamedJoin(s.toLoader, more);
    hide NamedIn;
  }

  lemma FlightAnswered(s: State, t: State, m: Msg, more: seq<Msg>)
    requires s.loaderBatch != [] && m == s.loaderBatch[0] && t.loaderBatch == s.loaderBatch[1..]
    requires t.toEngine == s.toEngine + more && |more| <= 1
    requires t.toLoader == s.toLoader && t.engineBatch == s.engineBatch
    ensures NamedIn(more) == Named(m) ==> Flight(t) == Flight(s)
    ensures NamedIn(more) == multiset{} ==> Flight(t) == Flight(s) - Named(m)
    ensures Sides(s) && (forall x :: x in more ==> !ForLoader(x)) ==> Sides(t)
  {
    hide Named, ForLoader;
    HeadOff(s.loaderBatch);
    NamedJoin(s.toEngine, more);
    hide NamedIn;
  }

  lemma OneNamed(m: Msg)
    ensures NamedIn([m]) == Named(m) && NamedIn([]) == multiset{}
  {
    assert [m][1..] == [];
  }

  lemma InFlight(s: State, d: Id)
    requires Inv(s) && d in Flight(s)
    ensures CanRelease(s, d) && Loader in s.holders[d] && s.res[d].status == Loading && d !in s.failed
    ensures Flight(s)[d] == 1
  {
    hide Edges, ChildrenExist, LoadsOnce, Flight;
    Counted(s.holders[d], Loader);
  }

  /** The reference comes back: the status is what the callback made of it. */
  lemma GivenBackOk(s: State, t: State, d: Id, status: Status)
    requires Inv(s) && d in Flight(s) && status != Unloaded && status != Deleting
    requires Flight(t) == Flight(s) - multiset{d} && Sides(t)
    requires d in s.res && d in s.holders && s.res[d].refCount > 0
    requires t.res == s.res[d := s.res[d].(status := status, refCount := s.res[d].refCount - 1)]
    requires t.holders == s.holders[d := s.holders[d] - multiset{Loader}]
    requires t.failed == s.failed && t.loads == s.loads && t.next == s.next
    ensures Inv(t)
  {
    hide Sides, Flight, Pins, Mail, Edges, ChildrenExist, Ledger, LoadsOnce;
    var r := t.res[d];
    var hs := t.holders[d];
    InFlight(s, d);
    PinsAt(s, d);
    Counted(s.holders[d], Loader);
    LedgerPut(s.res, s.holders, d, r, hs);
    EdgesSame(s.res, s.holders, d, r, hs);
    ChildrenSame(s.res, d, r);
    PinsPut(s.res, s.holders, d, r, hs);
    MailDone(Flight(s), s.failed, s.holders, d, hs);
    LoadsSame(s.res, s.loads, s.next, d, r);
  }

  lemma HeadSide(s: State)
    requires Inv(s)
    ensures Sides(s)
    ensures s.engineBatch != [] ==> !ForLoader(s.engineBatch[0]) && Named(s.engineBatch[0]) <= Flight(s)
    ensures s.loaderBatch != [] ==> ForLoader(s.loaderBatch[0]) && Named(s.loaderBatch[0]) <= Flight(s)
  {
    hide Pins, Mail, Edges, ChildrenExist, Ledger, LoadsOnce, Named, ForLoader;
    if s.engineBatch != [] { HeadOff(s.engineBatch); assert s.engineBatch[0] in s.engineBatch; }
    if s.loaderBatch != [] { HeadOff(s.loaderBatch); assert s.loaderBatch[0] in s.loaderBatch; }
    hide NamedIn;
  }

  lemma EngineHandleOk(s: State, callback: CallbackResult)
    requires Inv(s) && s.engineBatch != []
    ensures Inv(EngineHandled(s, callback))
  {
    hide Inv, Flight, NamedIn, Sides;
    HeadSide(s);
    match s.engineBatch[0]
    case FinishedOk(d) => FinishedOkHandled(s, callback, d);
    case WantCallback(d) =>
      if callback == Pending { PendingHandled(s, d); } else { CallbackHandled(s, callback, d); }
    case FinishedKo => KoHandled(s, callback);
  }

  function StatusAfter(status: Status, callback: CallbackResult): Status {
    match callback
    case Done => Ready
    case DoneBadly => Error
    case _ => status
  }

  /** The callback's status, and one reference less. */
  function LessOne(r: Res, callback: CallbackResult): Res
    requires r.refCount > 0
  {
    r.(status := StatusAfter(r.status, callback), refCount := r.refCount - 1)
  }

  /** The callback's status and the released reference, as one replacement. */
  lemma CallbackAndRelease(s: State, d: Id, callback: CallbackResult)
    requires CanRelease(s, d)
    ensures LetGo(AfterCallback(s, d, callback), d, Loader)
            == s.(res := s.res[d := LessOne(s.res[d], callback)],
            holders := s.holders[d := s.holders[d] - multiset{Loader}])
  {
  }

  lemma FinishedOkHandled(s: State, callback: CallbackResult, d: Id)
    requires Inv(s) && s.engineBatch != [] && s.engineBatch[0] == FinishedOk(d) && d in Flight(s) && Sides(s)
    ensures Inv(EngineHandled(s, callback))
  {
    hide Inv, Flight, NamedIn, Sides, LetGo, AfterCallback;
    var t := EngineHandled(s, callback);
    InFlight(s, d);
    CallbackAndRelease(s.(engineBatch := s.engineBatch[1..]), d, callback);
    FlightHandled(s, t, FinishedOk(d), []);
    OneNamed(FinishedOk(d));
    GivenBackOk(s, t, d, StatusAfter(s.res[d].status, callback));
  }

  lemma CallbackHandled(s: State, callback: CallbackResult, d: Id)
    requires Inv(s) && s.engineBatch != [] && s.engineBatch[0] == WantCallback(d) && d in Flight(s) && Sides(s)
    requires callback != Pending
    ensures Inv(EngineHandled(s, callback))
  {
    hide Inv, Flight, NamedIn, Sides, LetGo, AfterCallback;
    var t := EngineHandled(s, callback);
    InFlight(s, d);
    CallbackAndRelease(s.(engineBatch := s.engineBatch[1..]), d, callback);
    FlightHandled(s, t, WantCallback(d), [LoadFinished(d)]);
    OneNamed(LoadFinished(d));
    GivenBackOk(s, t, d, StatusAfter(s.res[d].status, callback));
  }

  lemma PendingHandled(s: State, d: Id)
    requires Inv(s) && s.engineBatch != [] && s.engineBatch[0] == WantCallback(d) && Sides(s)
    ensures Inv(EngineHandled(s, Pending))
  {
    hide Inv, Flight, NamedIn, Sides;
    var t := EngineHandled(s, Pending);
    FlightHandled(s, t, WantCallback(d), [LoadContinued(d)]);
    OneNamed(LoadContinued(d));
    OnlyMoved(s, t);
  }

  lemma KoHandled(s: State, callback: CallbackResult)
    requires Inv(s) && s.engineBatch != [] && s.engineBatch[0] == FinishedKo && Sides(s)
    ensures Inv(EngineHandled(s, callback))
  {
    hide Inv, Flight, NamedIn, Sides;
    var t := EngineHandled(s, callback);
    FlightHandled(s, t, FinishedKo, []);
    OneNamed(FinishedKo);
    OnlyMoved(s, t);
  }

  lemma LoaderHandleOk(s: State, result: LoaderResult)
    requires Inv(s) && s.loaderBatch != []
    ensures Inv(LoaderHandled(s, result))
  {
    hide Inv, Flight, NamedIn, Sides, LoaderHandled;
    HeadSide(s);
    var m := s.loaderBatch[0];
    if m.Load? || m.LoadContinued? {
      LoadHandled(s, result, m.descr);
    } else {
      NoLoadHandled(s, result);
    }
  }

  lemma LoadHandled(s: State, result: LoaderResult, d: Id)
    requires Inv(s) && s.loaderBatch != [] && d in Flight(s) && Sides(s)
    requires s.loaderBatch[0] == Load(d) || s.loaderBatch[0] == LoadContinued(d)
    ensures Inv(LoaderHandled(s, result))
  {
    hide Inv, Flight, NamedIn, Sides, Answer, Named;
    var t := LoaderHandled(s, result);
    var a := Answer(d, result);
    AnswerNames(s.loaderBatch[0], d, result);
    FlightAnswered(s, t, s.loaderBatch[0], [a]);
    if result == Failed {
      LostOk(s, t, d);
    } else {
      OnlyMoved(s, t);
    }
  }

  lemma AnswerNames(m: Msg, d: Id, result: LoaderResult)
    requires m == Load(d) || m == LoadContinued(d)
    ensures Named(m) == multiset{d} && !ForLoader(Answer(d, result))
    ensures NamedIn([Answer(d, result)]) == if result == Failed then multiset{} else Named(m)
  {
    OneNamed(Answer(d, result));
  }

  lemma NoLoadHandled(s: State, result: LoaderResult)
    requires Inv(s) && s.loaderBatch != [] && Sides(s) && ForLoader(s.loaderBatch[0])
    requires !s.loaderBatch[0].Load? && !s.loaderBatch[0].LoadContinued?
    ensures Inv(LoaderHandled(s, result))
  {
    hide Inv, Flight, NamedIn, Sides;
    var t := LoaderHandled(s, result);
    FlightAnswered(s, t, s.loaderBatch[0], []);
    OneNamed(s.loaderBatch[0]);
    OnlyMoved(s, t);
  }

  lemma LostOk(s: State, t: State, d: Id)
    requires Inv(s) && d in Flight(s) && Flight(t) == Flight(s) - multiset{d} && Sides(t)
    requires t.res == s.res && t.holders == s.holders && t.loads == s.loads
    requires t.next == s.next && t.failed == s.failed + {d}
    ensures Inv(t)
  {
    hide Sides, Flight, Pins, Mail, Edges, ChildrenExist, Ledger, LoadsOnce;
    MailLost(Flight(s), s.failed, s.holders, d);
  }

  /** Every step keeps the invariant. */
  lemma StepOk(s: State, step: Step)
    requires Inv(s) && Enabled(s, step)
    ensures Inv(Next(s, step))
  {
    match step
    case Create(uid) => CreateOk(s, uid);
    case IncRef(d) => IncRefOk(s, d);
    case AddChild(p, c) => AddChildOk(s, p, c);
    case RemoveChild(p, c) => RemoveChildOk(s, p, c);
    case DropRef(d) => DropRefOk(s, d);
    case Destroy(d) => DestroyOk(s, d);
    case Schedule(d) => ScheduleOk(s, d);
    case EnginePop => PopOk(s);
    case EngineHandle(callback) => EngineHandleOk(s, callback);
    case SendDie => SendDieOk(s);
    case LoaderPop => PopOk(s);
    case LoaderHandle(result) => LoaderHandleOk(s, result);
  }

  // ---------------------------------------------------------------- whole runs

  const START := State(map[], map[], [], [], [], [], false, multiset{}, {}, 0)

  /** States one step apart, from the start on. */
  ghost predicate IsRun(run: seq<State>, steps: seq<Step>) {
    && |run| == |steps| + 1 && run[0] == START
    && forall i :: 0 <= i < |steps| ==> Enabled(run[i], steps[i]) && run[i + 1] == Next(run[i], steps[i])
  }

  lemma StartOk()
    ensures Inv(START)
  {
    NothingNamed();
  }

  /** Whatever the interleaving, the invariant holds all along. */
  lemma {:induction false} RunOk(run: seq<State>, steps: seq<Step>, i: nat)
    requires IsRun(run, steps) && i < |run|
    ensures Inv(run[i])
  {
    hide Inv, Next, Enabled;
    if i == 0 {
      StartOk();
    } else {
      RunOk(run, steps, i - 1);
      StepOk(run[i - 1], steps[i - 1]);
    }
  }

  /** A descriptor that a load, continue, finished or callback message names is named by that message
      only, is loading, is held by the loader and by nobody's counting is free to go; and no step
      destroys it. */
  lemma NamedIsSafe(run: seq<State>, steps: seq<Step>, i: nat, d: Id)
    requires IsRun(run, steps) && i < |run| && d in Flight(run[i])
    ensures Flight(run[i])[d] == 1
    ensures d in run[i].res && run[i].res[d].status == Loading && run[i].res[d].refCount >= 1
    ensures d in run[i].holders && run[i].holders[d][Loader] == 1
    ensures i < |steps| ==> d in run[i + 1].res && run[i + 1].res[d].status != Deleting
  {
    hide Inv, Next, Enabled, Flight;
    var s := run[i];
    RunOk(run, steps, i);
    InFlight(s, d);
    PinsAt(s, d);
    if i < |steps| {
      SurvivesStep(s, steps[i], d);
    }
  }

  lemma SurvivesStep(s: State, step: Step, d: Id)
    requires Inv(s) && Enabled(s, step) && d in Flight(s)
    ensures d in Next(s, step).res && Next(s, step).res[d].status != Deleting
  {
    InFlight(s, d);
    PinsAt(s, d);
    hide Inv, Flight;
    match step
    case DropRef(e) => SurvivesDrop(s, e, d);
    case EngineHandle(callback) => SurvivesHandle(s, callback, d);
    case _ => SurvivesOther(s, step, d);
  }

  lemma SurvivesDrop(s: State, e: Id, d: Id)
    requires Enabled(s, DropRef(e)) && CanRelease(s, d) && Loader in s.holders[d] && s.res[d].status == Loading
    requires s.res[d].refCount == |s.holders[d]|
    ensures d in Dropped(s, e).res && Dropped(s, e).res[d].status == Loading
  {
    if e == d {
      assert Loader in s.holders[d] - multiset{Client};
      Counted(s.holders[d], Client);
      Counted(s.holders[d] - multiset{Client}, Loader);
    }
  }

  lemma SurvivesHandle(s: State, callback: CallbackResult, d: Id)
    requires s.engineBatch != [] && d in s.res && s.res[d].status == Loading
    ensures d in EngineHandled(s, callback).res && EngineHandled(s, callback).res[d].status != Deleting
  {
    var m, rest := s.engineBatch[0], s.(engineBatch := s.engineBatch[1..]);
    if m.FinishedOk? || m.WantCallback? { BackKeeps(rest, m.descr, callback); }
    hide AfterCallback, LetGo;
  }

  /** Giving a reference back keeps everything but one status and one count. */
  lemma BackKeeps(s: State, d: Id, callback: CallbackResult)
    ensures var t := LetGo(AfterCallback(s, d, callback), d, Loader);
            t.res.Keys == s.res.Keys && t.loads == s.loads && t.failed == s.failed
            && forall e :: e in s.res && s.res[e].status != Deleting ==> t.res[e].status != Deleting
  {
    var r := AfterCallback(s, d, callback);
    assert r.res.Keys == s.res.Keys && r.loads == s.loads && r.failed == s.failed;
    hide AfterCallback;
  }

  lemma SurvivesOther(s: State, step: Step, d: Id)
    requires Enabled(s, step) && !step.DropRef? && !step.EngineHandle?
    requires d in s.res && s.res[d].status == Loading && CanRelease(s, d)
    ensures d in Next(s, step).res && Next(s, step).res[d].status != Deleting
  {
    hide Without, LoaderHandled, Answered, EngineHandled, Dropped;
    if step.LoaderHandle? { LoaderKeepsTable(s, step.result); }
  }

  lemma LoaderKeepsTable(s: State, result: LoaderResult)
    requires s.loaderBatch != []
    ensures LoaderHandled(s, result).res == s.res && LoaderHandled(s, result).loads == s.loads
    ensures s.failed <= LoaderHandled(s, result).failed
  {
  }

  /** A load is asked for at most once in the life of a descriptor. */
  lemma LoadOnce(run: seq<State>, steps: seq<Step>, i: nat, j: nat, d: Id)
    requires IsRun(run, steps) && i < j < |steps| && steps[i] == Schedule(d)
    ensures steps[j] != Schedule(d)
  {
    hide Inv, Next, Enabled, Flight;
    RunOk(run, steps, j);
    ScheduledIsCounted(run[i], d);
    LoadsStay(run, steps, i + 1, j, d);
    NotTwice(run[j], d);
  }

  lemma ScheduledIsCounted(s: State, d: Id)
    requires Enabled(s, Schedule(d))
    ensures d in Next(s, Schedule(d)).loads
  {
  }

  lemma LoadsGrow(s: State, step: Step)
    requires Enabled(s, step)
    ensures s.loads <= Next(s, step).loads && s.failed <= Next(s, step).failed
  {
    hide LoaderHandled, EngineHandled, Dropped;
    match step
    case LoaderHandle(result) => LoaderKeepsTable(s, result);
    case EngineHandle(callback) => EngineKeepsLoads(s, callback);
    case DropRef(d) => DropKeepsLoads(s, d);
    case _ =>
  }

  lemma EngineKeepsLoads(s: State, callback: CallbackResult)
    requires s.engineBatch != []
    ensures EngineHandled(s, callback).loads == s.loads && EngineHandled(s, callback).failed == s.failed
    ensures s.res.Keys == EngineHandled(s, callback).res.Keys
  {
    var m, rest := s.engineBatch[0], s.(engineBatch := s.engineBatch[1..]);
    if m.FinishedOk? || m.WantCallback? { BackKeeps(rest, m.descr, callback); }
    hide AfterCallback, LetGo;
  }

  lemma DropKeepsLoads(s: State, d: Id)
    ensures Dropped(s, d).loads == s.loads && Dropped(s, d).failed == s.failed && Dropped(s, d).res.Keys == s.res.Keys
  {
  }

  lemma {:induction false} LoadsStay(run: seq<State>, steps: seq<Step>, i: nat, j: nat, d: Id)
    requires IsRun(run, steps) && i <= j < |run|
    ensures run[i].loads <= run[j].loads && run[i].failed <= run[j].failed
  {
    hide Next, Enabled;
    if i < j {
      LoadsStay(run, steps, i, j - 1, d);
      LoadsGrow(run[j - 1], steps[j - 1]);
    }
  }

  lemma NotTwice(s: State, d: Id)
    requires Inv(s) && d in s.loads
    ensures !Enabled(s, Schedule(d))
  {
    hide Sides, Ledger, Edges, ChildrenExist, Pins, Mail, Flight;
  }

  /** A load that failed is never given back: the descriptor stays loading, and stays, for the rest of
      the run, whatever its clients release. */
  lemma FailedStays(run: seq<State>, steps: seq<Step>, i: nat, j: nat, d: Id)
    requires IsRun(run, steps) && i <= j < |run| && d in run[i].failed
    ensures d in run[j].res && run[j].res[d].status == Loading && run[j].res[d].refCount >= 1
    ensures d !in Flight(run[j])
  {
    hide Inv, IsRun, Flight;
    RunOk(run, steps, j);
    LoadsStay(run, steps, i, j, d);
    FailedIsHeld(run[j], d);
  }

  lemma FailedIsHeld(s: State, d: Id)
    requires Inv(s) && d in s.failed
    ensures d in s.res && s.res[d].status == Loading && s.res[d].refCount >= 1 && d !in Flight(s)
  {
    hide Sides, Edges, ChildrenExist, LoadsOnce, Flight;
    Counted(s.holders[d], Loader);
  }

  /** A descriptor is destroyed only when nobody holds it: no client, no parent, no message. */
  lemma DestroyedIsFree(run: seq<State>, steps: seq<Step>, i: nat, d: Id)
    requires IsRun(run, steps) && i < |steps| && d in run[i].res && d !in run[i + 1].res
    ensures run[i].res[d].refCount == 0 && d !in Flight(run[i]) && d !in run[i].failed
    ensures forall p :: p in run[i].res ==> d !in run[i].res[p].children
  {
    hide Inv, Flight, Next, Enabled;
    RunOk(run, steps, i);
    OnlyDestroyRemoves(run[i], steps[i], d);
    DestroyedWas(run[i], d);
    PinsAt(run[i], d);
    NobodysChild(run[i], d);
  }

  lemma OnlyDestroyRemoves(s: State, step: Step, d: Id)
    requires Enabled(s, step) && d in s.res && d !in Next(s, step).res
    ensures step == Destroy(d) && s.res[d].status == Deleting
  {
    hide LoaderHandled, EngineHandled, Dropped;
    match step
    case LoaderHandle(result) => LoaderKeepsTable(s, result);
    case EngineHandle(callback) => EngineKeepsLoads(s, callback);
    case DropRef(e) => DropKeepsLoads(s, e);
    case _ =>
  }

  lemma DestroyedWas(s: State, d: Id)
    requires Inv(s) && d in s.res && s.res[d].status == Deleting
    ensures d in s.holders && s.holders[d] == multiset{} && d !in Flight(s) && d !in s.failed
  {
    hide Sides, Edges, ChildrenExist, LoadsOnce, Flight;
  }

  /** The message loop is about to give the loader's reference back. */
  ghost predicate GivesBack(s: State, callback: CallbackResult, d: Id) {
    s.engineBatch != []
    && (s.engineBatch[0] == FinishedOk(d) || (s.engineBatch[0] == WantCallback(d) && callback != Pending))
  }

  /** The message loop gives the loader's reference back without looking whether it was the last one,
      after either message. The descriptor is never destroyed then; it is left with nobody holding it
      exactly when the loader was its only holder. */
  lemma ForgottenWhenLast(s: State, callback: CallbackResult, d: Id)
    requires Inv(s) && GivesBack(s, callback, d)
    ensures var t := EngineHandled(s, callback);
            d in s.holders && d in t.res && t.res[d].status != Deleting
            && (t.res[d].refCount == 0 <==> s.holders[d] == multiset{Loader})
  {
    hide Inv, EngineHandled, StatusAfter, PinOk;
    HeadIsPinned(s);
    assert d in Named(s.engineBatch[0]);
    PinsAt(s, d);
    TableAfter(s, callback, d);
    NotDeletingAfter(s.res[d].status, callback);
    OnlyHolder(s.holders[d], Loader);
  }

  lemma NotDeletingAfter(status: Status, callback: CallbackResult)
    requires status != Deleting
    ensures StatusAfter(status, callback) != Deleting
  {
  }

  lemma OnlyHolder(m: multiset<Holder>, h: Holder)
    requires h in m
    ensures |m| == 1 <==> m == multiset{h}
  {
    Counted(m, h);
    if |m| == 1 {
      assert m - multiset{h} == multiset{};
      assert m == (m - multiset{h}) + multiset{h};
    }
  }

  lemma TableAfter(s: State, callback: CallbackResult, d: Id)
    requires GivesBack(s, callback, d) && CanRelease(s, d)
    ensures EngineHandled(s, callback).res == s.res[d := LessOne(s.res[d], callback)]
  {
    CallbackAndRelease(s.(engineBatch := s.engineBatch[1..]), d, callback);
    hide LetGo, AfterCallback, StatusAfter;
  }

  /** From then on it stays, until a client asks for it again. */
  lemma ForgottenStays(s: State, step: Step, d: Id)
    requires Inv(s) && Enabled(s, step) && d in s.res && s.res[d].refCount == 0 && s.res[d].status != Deleting
    requires step != Step.IncRef(d)
    ensures d in Next(s, step).res && Next(s, step).res[d].refCount == 0 && Next(s, step).res[d].status != Deleting
  {
    hide Inv, EngineHandled, Dropped, Created;
    PinsAt(s, d);
    if step.EngineHandle? {
      ForgottenNotNamed(s, d);
      HandleKeepsOthers(s, step.callback, d);
    } else if step.DropRef? {
      ForgottenDrop(s, step.d, d);
    } else if step.Create? {
      ForgottenCreate(s, step.uid, d);
    } else {
      ForgottenOther(s, step, d);
    }
  }

  lemma ForgottenCreate(s: State, uid: Uid, d: Id)
    requires Inv(s) && d in s.res
    ensures d in Created(s, uid).res && Created(s, uid).res[d] == s.res[d]
  {
    hide Sides, Edges, ChildrenExist, Pins, Mail, Flight;
    NextIsFree(s);
  }

  lemma ForgottenNotNamed(s: State, d: Id)
    requires Inv(s) && s.engineBatch != [] && d in s.holders && s.holders[d] == multiset{}
    ensures d !in Named(s.engineBatch[0])
  {
    hide Inv, Named;
    if d in Named(s.engineBatch[0]) {
      HeadIsPinned(s);
    }
  }

  lemma HandleKeepsOthers(s: State, callback: CallbackResult, d: Id)
    requires s.engineBatch != [] && d in s.res && d !in Named(s.engineBatch[0])
    ensures d in EngineHandled(s, callback).res && EngineHandled(s, callback).res[d] == s.res[d]
  {
    var m, rest := s.engineBatch[0], s.(engineBatch := s.engineBatch[1..]);
    if m.FinishedOk? || m.WantCallback? { BackKeepsOthers(rest, m.descr, callback, d); }
    hide AfterCallback, LetGo;
  }

  lemma BackKeepsOthers(s: State, d: Id, callback: CallbackResult, e: Id)
    requires e in s.res && e != d
    ensures var t := LetGo(AfterCallback(s, d, callback), d, Loader);
            e in t.res && t.res[e] == s.res[e]
  {
    var r := AfterCallback(s, d, callback);
    assert e in r.res && r.res[e] == s.res[e];
    hide AfterCallback;
  }

  lemma ForgottenDrop(s: State, e: Id, d: Id)
    requires Enabled(s, DropRef(e)) && d in s.res && d in s.holders && s.holders[d] == multiset{}
    ensures d in Dropped(s, e).res && Dropped(s, e).res[d] == s.res[d]
  {
  }

  lemma ForgottenOther(s: State, step: Step, d: Id)
    requires Enabled(s, step) && d in s.res && d in s.holders && s.holders[d] == multiset{}
    requires s.res[d].refCount == 0 && s.res[d].status != Deleting
    requires step != Step.IncRef(d) && step != Schedule(d) && !step.EngineHandle? && !step.DropRef? && !step.Create?
    ensures d in Next(s, step).res && Next(s, step).res[d].refCount == 0 && Next(s, step).res[d].status != Deleting
  {
    hide Without, LoaderHandled, Answered, EngineHandled, Dropped;
    if step.LoaderHandle? { LoaderKeepsTable(s, step.result); }
  }
}
