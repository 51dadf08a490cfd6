/** The engine's and the loader thread's code: every call does steps of the machine and no other. */
module LoaderEngine {
  import opened Arith
  import opened Options
  import opened LoaderProtocol
  import opened LoaderSteps
  import opened LoaderWays
  import opened LoaderShape
  import opened LoaderReady
  import opened LoaderBatches

  class Engine {
    var res: map<Id, Res>
    /** How many children of a descriptor are not ready. Nothing here relies on its values: a change of
        state or of children may change any of them. */
    var notReady: map<Id, nat>
    var toLoader: seq<Msg>
    var loaderBatch: seq<Msg>
    var toEngine: seq<Msg>
    var engineBatch: seq<Msg>
    var quit: bool
    var next: Id
    ghost var holders: map<Id, multiset<Holder>>
    ghost var loads: multiset<Id>
    ghost var failed: set<Id>
    ghost var run: seq<State>
    ghost var steps: seq<Step>
    /** Children are lower than their parents. */
    ghost var rank: map<Id, nat>

    ghost function State(): State
      reads this
    {
      LoaderProtocol.State(res, holders, toLoader, loaderBatch, toEngine, engineBatch, quit, loads, failed, next)
    }

    /** What was done so far is a run of the machine that ends here. */
    ghost predicate Recorded()
      reads this
    {
      RunEndsAt(run, steps, State())
    }

    ghost predicate Valid()
      reads this
    {
      Recorded() && Shape(res, rank)
    }

    lemma Known()
      requires Recorded()
      ensures Inv(State()) && WellFormed(State())
    {
      hide Inv;
      RunOk(run, steps, |steps|);
      InvWellFormed(State());
    }

    constructor ()
      ensures Valid() && State() == START
    {
      res, notReady, toLoader, loaderBatch, toEngine, engineBatch := map[], map[], [], [], [], [];
      quit, next, holders, loads, failed := false, 0, map[], multiset{}, {};
      run, steps := [START], [];
      rank := map[];
    }

    /** Notes a step after it was done. */
    ghost method Record(was: State, step: Step)
      requires RunEndsAt(run, steps, was) && Enabled(was, step) && State() == LoaderProtocol.Next(was, step)
      modifies this`run, this`steps
      ensures Recorded() && steps == old(steps) + [step] && run == old(run) + [State()]
    {
      hide Enabled, LoaderProtocol.Next;
      RunMore(run, steps, step);
      run, steps := run + [State()], steps + [step];
    }

    // -------------------------------------------------------------- resources

    /** `res2::change_state`; parents are told, which may change any count of children not ready. */
    method ChangeState(d: Id, status: Status)
      requires d in res
      modifies this`res, this`notReady
      ensures res == old(res)[d := old(res)[d].(status := status)]
    {
      if res[d].status == status {
        assert res == res[d := res[d].(status := status)];
        return;
      }
      res := res[d := res[d].(status := status)];
      notReady := *;
    }

    method Create(uid: Uid) returns (d: Id)
      requires Valid()
      modifies this
      ensures Valid() && d == old(next) && State() == Created(old(State()), uid) && rank == old(rank)[d := 0]
      ensures d !in old(res)
              && res == old(res)[d := Res(uid, if uid == SignatureUid then Unloaded else Ready, 1, [])]
    {
      hide Inv, IsRun;
      Known();
      NextIsNew(State());
      ShapeNew(res, rank, next, Created(State(), uid).res[next]);
      d := PrivCreate(uid);
    }

    method PrivCreate(uid: Uid) returns (d: Id)
      requires Recorded()
      modifies this
      ensures Recorded() && d == old(next) && State() == Created(old(State()), uid)
      ensures rank == old(rank)[d := 0]
    {
      hide RunEndsAt, LoaderProtocol.Next, Enabled, Created;
      ghost var was := State();
      CreateIs(was, uid);
      hide FirstStatus;
      d := PrivReserve(uid);
      rank := rank[d := 0];
      Record(was, Step.Create(uid));
    }

    /** A new descriptor is in error until its status is set. */
    method PrivReserve(uid: Uid) returns (d: Id)
      modifies this`res, this`notReady, this`holders, this`next
      ensures d == old(next) && next == d + 1 && holders == old(holders)[d := multiset{Client}]
      ensures res == old(res)[d := Res(uid, FirstStatus(uid), 1, [])]
    {
      var status := FirstStatus(uid);
      hide FirstStatus;
      d := next;
      PutTwice(res, d, Res(uid, Error, 1, []), Res(uid, status, 1, []));
      res := res[d := Res(uid, Error, 1, [])];
      holders := holders[d := multiset{Client}];
      next := next + 1;
      ChangeState(d, status);
    }

    /** An asset: ready from the start, with the resource the caller holds as its only child. */
    method CreateAsset(child: Id) returns (d: Id)
      requires Valid() && child in res && child in holders && Client in holders[child]
      modifies this
      ensures Valid() && d == old(next) && d in res && res[d] == Res(AssetUid, Ready, 1, [child])
      ensures child in old(holders) && d in Created(old(State()), AssetUid).res
      ensures State() == WithChildren(Moved(Created(old(State()), AssetUid), child, Client, Parent(d)), d, [child])
    {
      hide RunEndsAt, Inv, LoaderProtocol.Next, Enabled, Moved, WithChildren, Created, Shape;
      ghost var s := State();
      Known();
      NextIsNew(State());
      NextIsFreeHere(s);
      AssetIs(s, child);
      ShapeAsset(res, rank, next, child);
      d := PrivCreate(AssetUid);
      PrivAddChild(d, child);
      PutTwice(old(rank), d, 0, rank[child] + 1);
      rank := rank[d := rank[child] + 1];
    }

    /** One more reference for a client. */
    method IncRef(d: Id)
      requires Valid() && d in res && res[d].status != Deleting
      modifies this
      ensures Valid() && d in old(holders) && State() == Held(old(State()), d, Client) && rank == old(rank)
      ensures res == old(res)[d := old(res)[d].(refCount := old(res)[d].refCount + 1)]
    {
      hide Inv, RunEndsAt, LoaderProtocol.Next, Enabled, Shape;
      Known();
      ghost var was := State();
      res := res[d := res[d].(refCount := res[d].refCount + 1)];
      holders := holders[d := holders[d] + multiset{Client}];
      IncIs(was, d);
      ShapePut(was.res, rank, d, res[d]);
      Record(was, Step.IncRef(d));
    }

    /** A client's reference of `c` becomes the parent's; `newRank` shows there is no cycle. */
    method AddChild(p: Id, c: Id, ghost newRank: map<Id, nat>)
      requires Valid() && p in res && c in res && c in holders && Client in holders[c]
      requires Shape(res, newRank) && newRank[c] < newRank[p]
      modifies this
      ensures Valid() && p in old(res) && c in old(holders) && rank == newRank
      ensures res == old(res)[p := old(res)[p].(children := [c] + old(res)[p].children)]
      ensures State() == WithChildren(Moved(old(State()), c, Client, Parent(p)), p, [c] + old(res)[p].children)
    {
      hide RunEndsAt, Inv;
      ShapeAdd(res, newRank, p, [c] + res[p].children, c);
      PrivAddChild(p, c);
      rank := newRank;
    }

    method PrivAddChild(p: Id, c: Id)
      requires Recorded() && p in res && c in res && c in holders && Client in holders[c]
      modifies this
      ensures Recorded() && p in old(res) && c in old(holders) && rank == old(rank)
      ensures State() == WithChildren(Moved(old(State()), c, Client, Parent(p)), p, [c] + old(res)[p].children)
    {
      hide RunEndsAt, Inv;
      ghost var was := State();
      res := res[p := res[p].(children := [c] + res[p].children)];
      holders := holders[c := holders[c] - multiset{Client} + multiset{Parent(p)}];
      notReady := *;
      Record(was, Step.AddChild(p, c));
    }

    /** Removes the first place where `c` is a child of `p`; the reference is the caller's now. */
    method RemoveChild(p: Id, c: Id)
      requires Valid() && p in res && c in res[p].children && c in holders
      modifies this
      ensures Valid() && p in old(res) && c in old(res)[p].children && c in old(holders) && rank == old(rank)
      ensures p in res && FirstGone(old(res)[p].children, c, res[p].children)
              && res == old(res)[p := old(res)[p].(children := res[p].children)]
      ensures State() == WithChildren(Moved(old(State()), c, Parent(p), Client), p, Without(old(res)[p].children, c))
    {
      hide RunEndsAt, Inv, Without, Shape;
      WithoutFewer(res[p].children, c);
      WithoutFirst(res[p].children, c);
      ShapeFewer(res, rank, p, Without(res[p].children, c));
      ghost var was := State();
      res := res[p := res[p].(children := Without(res[p].children, c))];
      holders := holders[c := holders[c] - multiset{Parent(p)} + multiset{Client}];
      notReady := *;
      Record(was, Step.RemoveChild(p, c));
    }

    /** `res2::release`, and the change of state when it was the last reference. */
    method PrivDropRef(d: Id) returns (last: bool)
      requires Recorded() && d in res && d in holders && Client in holders[d]
      modifies this
      ensures Recorded() && State() == Dropped(old(State()), d) && rank == old(rank)
      ensures d in old(res) && last == (old(res)[d].refCount == 1)
      ensures d in res && res[d].refCount == old(res)[d].refCount - 1
              && res[d].status == if last then Deleting else old(res)[d].status
    {
      hide RunEndsAt, Inv, WellFormed;
      Known();
      ghost var was := State();
      DropCounts(was, d);
      res := res[d := res[d].(refCount := res[d].refCount - 1)];
      holders := holders[d := holders[d] - multiset{Client}];
      last := res[d].refCount == 0;
      if last {
        ChangeState(d, Deleting);
      }
      Record(was, DropRef(d));
    }

    /** `res2__release`: gives up one of the caller's references. An unknown handle does nothing. */
    method Release(d: Id)
      requires Valid() && (d in res ==> d in holders && Client in holders[d])
      modifies this
      ensures Valid() && WellFormed(old(State())) && WellFormed(State())
      ensures d !in old(res) ==> State() == old(State())
      ensures d in old(res) ==> Released(old(State()), State(), d)
      ensures d in old(res) && old(res)[d].refCount > 1 ==>
                res == old(res)[d := old(res)[d].(refCount := old(res)[d].refCount - 1)]
      ensures d in old(res) && old(res)[d].refCount == 1 ==> d !in res
      ensures d in old(res) && d in rank ==> OnlyBelow(old(res), res, rank, rank[d])
      ensures rank == old(rank)
      decreases |Active(res)|, 0
    {
      hide RunEndsAt, Inv, Dropped, Released, Releasing, Shape, Thinner, Active, WellFormed, OnlyBelow;
      Known();
      if d !in res {
        return;
      }
      ghost var s := State();
      InRank(res, rank, d);
      DropKeeps(s, d);
      BelowKeeps(res, Dropped(s, d).res, rank, rank[d]);
      DropThins(s, d);
      ShapeThinner(res, Dropped(s, d).res, rank);
      ActiveLess(res, Dropped(s, d).res);
      var last := PrivDropRef(d);
      if !last {
        DropCounts(s, d);
        ReleasedAtOnce(s, d);
        DroppedOnly(s, d);
        return;
      }
      ReleasingStart(s, d);
      ReleasingActive(s, d);
      PrivReleaseChildren(d, s);
      ReleasingEnd(s, State(), d);
      BelowTwice(s.res, Dropped(s, d).res, res, rank, rank[d], rank[d]);
      BelowDestroyed(res, rank, d);
      BelowTwice(s.res, res, res - {d}, rank, rank[d], rank[d]);
      PrivDestroy(d);
    }

    /** The children of what is being deleted are removed and released, first to last. */
    method PrivReleaseChildren(d: Id, ghost s: State)
      requires Valid() && WellFormed(s) && WellFormed(State()) && Releasing(s, State(), d) && d in rank
      modifies this
      ensures OnlyBelow(old(res), res, old(rank), old(rank)[d])
      ensures Valid() && WellFormed(State()) && Releasing(s, State(), d)
      ensures d in res && res[d].children == [] && res[d].status == Deleting
      ensures rank == old(rank)
      decreases |Active(res)|, 1
    {
      hide RunEndsAt, Inv, Releasing, Shape, Thinner, Active, WellFormed, Without, Released, OnlyBelow;
      ReleasingHas(s, State(), d);
      BelowKeeps(res, res, rank, rank[d]);
      while res[d].children != []
        invariant Valid() && WellFormed(State()) && Releasing(s, State(), d) && rank == old(rank)
        invariant d in res && res[d].status == Deleting
        invariant |Active(res)| <= |Active(old(res))| && OnlyBelow(old(res), res, rank, rank[d])
        decreases |res[d].children|
      {
        Known();
        var c := res[d].children[0];
        ghost var u := State();
        ChildIsLower(u, rank, d);
        RemoveThins(u, d, c);
        RemoveChild(d, c);
        ghost var v := State();
        ShapeThinner(u.res, v.res, rank);
        ActiveLess(u.res, v.res);
        Release(c);
        ReleasedThins(v, State(), c);
        ActiveLess(v.res, res);
        ReleasingOne(s, u, v, State(), d, c);
        ReleasingHas(s, State(), d);
        ReleasedKeeps(v, State(), c, d);
        BelowKeeps(u.res, v.res, rank, rank[d]);
        BelowTwice(old(res), u.res, v.res, rank, rank[d], rank[d]);
        BelowTwice(old(res), v.res, res, rank, rank[d], rank[c]);
      }
    }

    /** `res2::destroy`, and the descriptor's memory given back. */
    method PrivDestroy(d: Id)
      requires Valid() && d in res && res[d].status == Deleting && res[d].children == []
      modifies this
      ensures Valid() && State() == Destroyed(old(State()), d) && rank == old(rank)
      ensures res == old(res) - {d} && holders == old(holders) - {d}
    {
      hide RunEndsAt, Inv, Shape;
      DestroyThins(res, d);
      ShapeThinner(res, res - {d}, rank);
      ghost var was := State();
      res := res - {d};
      holders := holders - {d};
      Record(was, Destroy(d));
    }

    /** `asset_hotreload`: the asset lets go of its resource `c` and gets the one of its signature now.
        `found` is whether the database still has the asset, `known` the descriptor of that signature,
        and `mid` is the state after the release. The asset gets the known resource when it has outlived the
        release, and a new one otherwise; it has a resource again exactly when it was found. */
    method AssetHotReload(asset: Id, found: bool, known: Option<Id>, ghost newRank: map<Id, nat>)
      returns (ghost c: Id, ghost mid: State)
      requires Valid() && AssetsWhole(res) && asset in res
      requires res[asset].uid == AssetUid && res[asset].status != Deleting
      requires known.Some? ==> known.value in res && res[known.value].uid == SignatureUid
      requires Shape(res, newRank) && newRank[asset] > 0 && (known.Some? ==> newRank[known.value] < newRank[asset])
      modifies this
      ensures Valid() && asset in res && res[asset].uid == AssetUid && res[asset].status == old(res)[asset].status
      ensures |res[asset].children| == (if found then 1 else 0) && OthersWhole(res, asset)
      ensures AssetsWhole(res) <==> found
      ensures old(res)[asset].children == [c] && LetGoOf(old(State()), mid, asset, c)
      ensures !found ==> State() == mid
      ensures found && known.Some? && InUse(mid.res, known.value) ==>
                var n := known.value;
                res == mid.res[n := OneMore(mid.res[n])][asset := Owning(mid.res, asset, n)]
      ensures found && !(known.Some? && InUse(mid.res, known.value)) ==>
                var n := old(next);
                res == mid.res[n := Res(SignatureUid, Unloaded, 1, [])][asset := Owning(mid.res, asset, n)]
    {
      hide RunEndsAt, Inv, Shape, AssetsWhole, OthersWhole, Released, WellFormed, Without, OnlyBelow, Held, Created,
           Moved, LetGoOf, WithChildren;
      rank := newRank;
      Known();
      AssetChild(res, asset);
      c := res[asset].children[0];
      ghost var s := State();
      ChildIsLower(s, rank, asset);
      PrivLetGo(asset);
      mid := State();
      if found {
        var n;
        Known();
        NextIsNew(State());
        if known.Some? && known.value in res && res[known.value].status != Deleting {
          n := known.value;
          SameKeys(State());
          HeldKeepsWhole(State(), n, asset);
          KnownGiven(mid, asset, n);
          IncRef(n);
        } else {
          CreatedKeepsWhole(State(), asset);
          NewGiven(mid, asset);
          n := Create(SignatureUid);
        }
        ChildGiven(State(), asset, n);
        AddChild(asset, n, rank);
      }
      WholeMeans(res, asset);
    }

    /** The asset's only child is removed and released. */
    method PrivLetGo(asset: Id)
      requires Valid() && AssetsWhole(res) && asset in res
      requires res[asset].uid == AssetUid && res[asset].status != Deleting && |res[asset].children| == 1
      requires var c := res[asset].children[0]; c in res && c in rank && asset in rank && rank[c] < rank[asset]
      modifies this
      ensures Valid() && rank == old(rank) && asset in res && OthersWhole(res, asset) && res[asset].children == []
      ensures res[asset].uid == AssetUid && res[asset].status == old(res)[asset].status
      ensures LetGoOf(old(State()), State(), asset, old(res)[asset].children[0]) && next == old(next)
    {
      hide RunEndsAt, Inv, Shape, AssetsWhole, OthersWhole, Released, WellFormed, Without, OnlyBelow, Held, Created,
           Moved, LetGoOf;
      Known();
      SameKeys(State());
      var c := res[asset].children[0];
      ghost var s := State();
      RemoveChild(asset, c);
      ghost var u := State();
      ChildTaken(s, u, asset, c);
      Release(c);
      ghost var v := State();
      ChildReleased(u, v, rank, asset, c);
      LetGoMeans(s, u, v, asset, c);
    }

    // -------------------------------------------------------------- loading

    method PrivIsReady(d: Id) returns (r: bool)
      requires d in res
      ensures r == IsReady(res[d], notReady, d)
    {
      r := res[d].status == Ready && (d !in notReady || notReady[d] == 0);
    }

    /** The state change, the loader's reference and the message. A descriptor that was not ready is not
        ready after, so no parent is told. */
    method PrivSchedule(d: Id)
      requires Recorded() && d in res && d in holders && res[d].status == Unloaded
      modifies this
      ensures Recorded() && State() == Scheduled(old(State()), d) && rank == old(rank) && notReady == old(notReady)
      ensures Asked(old(res), res, iset{d})
    {
      hide RunEndsAt, LoaderProtocol.Next, Enabled, Scheduled, Asked;
      ghost var was := State();
      ScheduleIs(was, d);
      PrivPin(d);
      loads := loads + multiset{d};
      toLoader := toLoader + [Load(d)];
      Record(was, Schedule(d));
    }

    /** The change of state and the reference that keeps the descriptor while the loader has it. */
    method PrivPin(d: Id)
      requires d in res && d in holders
      modifies this`res, this`holders
      ensures res == old(res)[d := old(res)[d].(status := Loading, refCount := old(res)[d].refCount + 1)]
      ensures holders == old(holders)[d := old(holders)[d] + multiset{Loader}]
    {
      res := res[d := res[d].(status := Loading, refCount := res[d].refCount + 1)];
      holders := holders[d := holders[d] + multiset{Loader}];
    }

    /** `res2__get_or_schedule_load` without a timeout: true when ready; otherwise exactly the unloaded
        descriptors the recursion visits are asked for, each with one message. When the counts are right,
        ready means that everything below is, and asked for is what can be reached past nothing that is
        in error. */
    method GetOrScheduleLoad(d: Id) returns (ready: bool)
      requires Valid() && AssetsWhole(res) && d in res && d in rank && res[d].status != Deleting
      modifies this
      ensures Valid() && AssetsWhole(res) && rank == old(rank) && notReady == old(notReady)
      ensures ready == IsReady(old(res)[d], notReady, d)
      ensures Asked(old(res), res, Under(old(res), notReady, d))
      ensures Sent(old(State()), State())
      ensures ready <==> old(res)[d].status == Ready && (d in notReady ==> notReady[d] == 0)
      ensures forall t, r, top | TrueCounts(old(res), notReady, t, r, top) ::
                Exactly(old(res), res, notReady, d, ready, t, r, top)
      ensures old(res)[d].status == Ready && d in notReady && notReady[d] > 0 ==>
                forall c :: c in old(res)[d].children ==> AskedNow(old(State()), State(), c)
    {
      hide RunEndsAt, Inv, Shape, AssetsWhole, Asked, Under, Sent, Exactly, TrueCounts, WellFormed, AskedNow;
      Known();
      ghost var s := State();
      ready := PrivGetOrScheduleLoad(d);
      KeysStay(s.res, res, Under(s.res, notReady, d));
      AnswerMeans(s.res, res, notReady, d, ready);
      AssetAsks(s, State(), notReady, d);
    }

    /** The recursion. */
    method PrivGetOrScheduleLoad(d: Id) returns (ready: bool)
      requires Valid() && AssetsWhole(res) && d in res && d in rank && res[d].status != Deleting
      modifies this
      ensures Valid() && AssetsWhole(res) && rank == old(rank) && notReady == old(notReady)
      ensures ready == IsReady(old(res)[d], notReady, d)
      ensures Asked(old(res), res, Under(old(res), notReady, d))
      ensures Sent(old(State()), State())
      decreases rank[d], 3
    {
      hide RunEndsAt, Inv, Shape, AssetsWhole, Asked, Under, UnderChildren, Sent, Visited;
      Known();
      AskedNothing(res);
      SentNothing(State());
      NotVisited(res, notReady, d);
      PinsAt(State(), d);
      ready := PrivIsReady(d);
      if ready || res[d].status == Error {
        return;
      }
      UnderIs(res, notReady, d);
      UnderZero(res, notReady, d);
      ghost var s := State();
      ghost var was := res;
      if res[d].uid == AssetUid {
        AssetChild(res, d);
        PrivScheduleChild(d, 0, was);
        AskedKeeps(was, res, d, UnderChildren(was, notReady, d, 1));
        AskedAnyway(was, res, UnderChildren(was, notReady, d, 1), d);
      } else {
        PrivScheduleChildren(d);
        ghost var u := State();
        AskedKeeps(was, res, d, UnderChildren(was, notReady, d, |was[d].children|));
        PrivScheduleSelf(d, was, UnderChildren(was, notReady, d, |was[d].children|));
        SentTwice(s, u, State());
      }
      AskedKeeps(was, res, d, Under(was, notReady, d));
      // the source has a second place to schedule from here on, for what is still unloaded
      assert res[d].status != Unloaded;
    }

    /** Child by child; those that are ready are passed over. */
    method PrivScheduleChildren(d: Id)
      requires Valid() && AssetsWhole(res) && d in res && d in rank && res[d].status != Deleting
      modifies this
      ensures Valid() && AssetsWhole(res) && rank == old(rank) && notReady == old(notReady)
      ensures Asked(old(res), res, UnderChildren(old(res), notReady, d, |old(res)[d].children|))
      ensures Sent(old(State()), State())
      decreases rank[d], 2
    {
      hide RunEndsAt, Inv, Shape, AssetsWhole, Asked, Under, UnderChildren, Sent;
      ghost var was := res;
      AskedNothing(res);
      SentNothing(State());
      var i := 0;
      UnderZero(was, notReady, d);
      while i < |res[d].children|
        invariant Valid() && AssetsWhole(res) && rank == old(rank) && notReady == old(notReady)
        invariant d in res && res[d].children == was[d].children && i <= |was[d].children|
        invariant Asked(was, res, UnderChildren(was, notReady, d, i))
        invariant Sent(old(State()), State())
        decreases |was[d].children| - i
      {
        ghost var u := State();
        PrivScheduleChild(d, i, was);
        SentTwice(old(State()), u, State());
        AskedKeeps(was, res, d, UnderChildren(was, notReady, d, i + 1));
        i := i + 1;
      }
    }

    method PrivScheduleChild(d: Id, i: nat, ghost was: Table)
      requires Valid() && AssetsWhole(res) && d in res && d in rank && d in was
      requires i < |was[d].children| && res[d].children == was[d].children
      requires Asked(was, res, UnderChildren(was, notReady, d, i))
      modifies this
      ensures Valid() && AssetsWhole(res) && rank == old(rank) && notReady == old(notReady)
      ensures Asked(was, res, UnderChildren(was, notReady, d, i + 1))
      ensures Sent(old(State()), State())
      decreases rank[d], 1
    {
      hide RunEndsAt, Inv, Shape, AssetsWhole, Asked, Under, UnderChildren, Sent;
      Known();
      SentNothing(State());
      UnderMore(was, notReady, d, i);
      var c := res[d].children[i];
      ghost var mid := res;
      ChildThere(State(), rank, d, i);
      AskedSameWays(was, mid, UnderChildren(was, notReady, d, i));
      SameUnder(was, mid, notReady);
      var r := PrivIsReady(c);
      if r {
        NotVisited(mid, notReady, c);
        assert UnderChildren(was, notReady, d, i + 1) == UnderChildren(was, notReady, d, i);
      } else {
        r := PrivGetOrScheduleLoad(c);
        AskedTwice(was, mid, res, UnderChildren(was, notReady, d, i), Under(mid, notReady, c));
      }
    }

    /** The descriptor itself, when it is a signature that waits to be loaded. */
    method PrivScheduleSelf(d: Id, ghost was: Table, ghost wanted: iset<Id>)
      requires Valid() && AssetsWhole(res) && d in res && Asked(was, res, wanted)
      modifies this
      ensures Valid() && AssetsWhole(res) && rank == old(rank) && notReady == old(notReady)
      ensures Asked(was, res, iset{d} + wanted) && Sent(old(State()), State())
    {
      hide RunEndsAt, Inv, Shape, AssetsWhole, Asked, Sent;
      Known();
      PinsAt(State(), d);
      SentNothing(State());
      ghost var mid := res;
      if res[d].uid == SignatureUid && res[d].status == Unloaded {
        SentLoad(State(), d);
        PrivSchedule(d);
        ShapeAsked(mid, res, rank, iset{d});
        AskedTwice(was, mid, res, wanted, iset{d});
        assert wanted + iset{d} == iset{d} + wanted;
      } else {
        AskedAnyway(was, res, wanted, d);
      }
    }

    // -------------------------------------------------------------- messages

    /** `res2__callbak_on_file_loaded`: `callback` is what the function of the resource's type answers, or
        that there is none. */
    method CallbackOnFileLoaded(d: Id, callback: CallbackResult) returns (result: CallbackResult)
      requires d in res
      modifies this`res, this`notReady
      ensures result == if callback == NoFunction then DoneBadly else callback
      ensures res == old(res)[d := old(res)[d].(status := StatusAfter(old(res)[d].status, callback))]
      ensures callback == Done ==> res[d].status == Ready
      ensures callback == DoneBadly ==> res[d].status == Error
      ensures callback == NoFunction || callback == Pending ==> res == old(res)
    {
      if callback == NoFunction {
        assert res == res[d := res[d].(status := res[d].status)];
        return DoneBadly;
      }
      result := callback;
      if callback == Done {
        ChangeState(d, Ready);
      } else if callback == DoneBadly {
        ChangeState(d, Error);
      } else {
        assert res == res[d := res[d].(status := res[d].status)];
      }
    }

    /** The callback, and `res2::release` as the message loop calls it: the answer, whether that was the
        last reference, is not looked at. */
    method PrivGiveBack(d: Id, callback: CallbackResult)
      requires d in res && d in holders && res[d].refCount > 0
      modifies this`res, this`notReady, this`holders
      ensures var r := old(res)[d];
              res == old(res)[d := r.(status := StatusAfter(r.status, callback), refCount := r.refCount - 1)]
      ensures holders == old(holders)[d := old(holders)[d] - multiset{Loader}]
    {
      var result := CallbackOnFileLoaded(d, callback);
      res := res[d := res[d].(refCount := res[d].refCount - 1)];
      holders := holders[d := holders[d] - multiset{Loader}];
    }

    /** One message of the engine's batch. */
    method PrivHandle(callback: CallbackResult)
      requires Valid() && engineBatch != []
      modifies this
      ensures Valid() && State() == EngineHandled(old(State()), callback) && rank == old(rank)
      ensures engineBatch == old(engineBatch)[1..]
    {
      hide RunEndsAt, Shape, CanRelease, EngineHandled;
      Known();
      HeadCanGo(State());
      hide Inv, WellFormed;
      var m := engineBatch[0];
      if m.FinishedOk? {
        PrivFinished(m.descr, callback);
      } else if m.WantCallback? {
        if callback == Pending {
          PrivPending(m.descr);
        } else {
          PrivCallback(m.descr, callback);
        }
      } else {
        PrivSkip(callback);
      }
    }

    /** The other messages say nothing the engine acts on. */
    method PrivSkip(callback: CallbackResult)
      requires Valid() && engineBatch != [] && !engineBatch[0].FinishedOk? && !engineBatch[0].WantCallback?
      modifies this
      ensures Valid() && State() == EngineHandled(old(State()), callback) && rank == old(rank)
      ensures engineBatch == old(engineBatch)[1..]
    {
      hide RunEndsAt, Shape, LoaderProtocol.Next, Enabled, EngineHandled;
      ghost var was := State();
      HandleIs(was, callback);
      KoIs(was, callback);
      engineBatch := engineBatch[1..];
      Record(was, EngineHandle(callback));
    }

    method PrivFinished(d: Id, callback: CallbackResult)
      requires Valid() && engineBatch != [] && engineBatch[0] == FinishedOk(d)
      requires CanRelease(State(), d) && res[d].status != Deleting
      modifies this
      ensures Valid() && State() == EngineHandled(old(State()), callback) && rank == old(rank)
      ensures engineBatch == old(engineBatch)[1..]
    {
      hide RunEndsAt, Shape, LoaderProtocol.Next, Enabled, EngineHandled, StatusAfter;
      ghost var was := State();
      HandleIs(was, callback);
      FinishedIs(was, callback, d);
      ShapePut(res, rank, d, BackAgain(was, d, callback).res[d]);
      PrivGiveBack(d, callback);
      engineBatch := engineBatch[1..];
      Record(was, EngineHandle(callback));
    }

    method PrivCallback(d: Id, callback: CallbackResult)
      requires Valid() && engineBatch != [] && engineBatch[0] == WantCallback(d)
      requires CanRelease(State(), d) && res[d].status != Deleting
      requires callback != Pending
      modifies this
      ensures Valid() && State() == EngineHandled(old(State()), callback) && rank == old(rank)
      ensures engineBatch == old(engineBatch)[1..]
    {
      hide RunEndsAt, Shape, LoaderProtocol.Next, Enabled, EngineHandled, StatusAfter, CanRelease, BackAgain;
      ghost var was := State();
      HandleIs(was, callback);
      CallbackIs(was, callback, d);
      BackIs(was, d, callback);
      ShapePut(res, rank, d, BackAgain(was, d, callback).res[d]);
      PrivGiveBack(d, callback);
      toLoader := toLoader + [LoadFinished(d)];
      engineBatch := engineBatch[1..];
      Record(was, EngineHandle(callback));
    }

    /** The callback wants the loader to go on: the reference stays with the loader. */
    method PrivPending(d: Id)
      requires Valid() && engineBatch != [] && engineBatch[0] == WantCallback(d)
      requires CanRelease(State(), d) && res[d].status != Deleting
      modifies this
      ensures Valid() && State() == EngineHandled(old(State()), Pending) && rank == old(rank)
      ensures engineBatch == old(engineBatch)[1..]
    {
      hide RunEndsAt, Shape, LoaderProtocol.Next, Enabled, EngineHandled, StatusAfter, CanRelease, BackAgain;
      ghost var was := State();
      HandleIs(was, Pending);
      CallbackIs(was, Pending, d);
      BackIs(was, d, Pending);
      var result := CallbackOnFileLoaded(d, Pending);
      toLoader := toLoader + [LoadContinued(d)];
      engineBatch := engineBatch[1..];
      Record(was, EngineHandle(Pending));
    }

    /** `res2__flushLoaderThreadMsg`: up to sixteen messages are popped and handled in order. */
    method FlushLoaderThreadMsg(callbacks: seq<CallbackResult>)
      requires Valid() && engineBatch == [] && |callbacks| == ENGINE_BATCH
      modifies this
      ensures Valid() && rank == old(rank) && engineBatch == []
      ensures State() == EngineAll(EnginePopped(old(State())), callbacks)
      ensures var n := if |old(toEngine)| < 16 then |old(toEngine)| else 16;
              && toEngine == old(toEngine)[n..] && toLoader == old(toLoader) + Replies(old(toEngine)[..n], callbacks)
              && Handled(old(res), res, old(toEngine)[..n], callbacks)
    {
      hide RunEndsAt, Inv, Shape, LoaderProtocol.Next, Enabled, EngineHandled, EngineAll, Handled;
      ghost var was := State();
      PopIs(was);
      var n := Min(ENGINE_BATCH, |toEngine|);
      engineBatch, toEngine := toEngine[..n], toEngine[n..];
      Record(was, EnginePop);
      ghost var popped := State();
      Known();
      EngineReplies(popped, callbacks);
      var i := 0;
      while i < n
        invariant Valid() && rank == old(rank) && i <= n && |engineBatch| == n - i
        invariant EngineAll(State(), callbacks[i..]) == EngineAll(popped, callbacks)
      {
        EngineAllStep(State(), callbacks[i..]);
        assert callbacks[i..][1..] == callbacks[i + 1..];
        PrivHandle(callbacks[i]);
        i := i + 1;
      }
      EngineAllStep(State(), callbacks[i..]);
    }

    /** One message of the loader's batch; `result` is what the loader of the type answers. */
    method PrivLoad(result: LoaderResult)
      requires Valid() && loaderBatch != []
      modifies this
      ensures Valid() && State() == LoaderHandled(old(State()), result) && rank == old(rank)
      ensures loaderBatch == old(loaderBatch)[1..]
    {
      hide RunEndsAt, Inv, Shape, Answer, LoaderProtocol.Next, Enabled, LoaderHandled;
      ghost var was := State();
      LoadIs(was, result);
      PrivAnswer(loaderBatch[0], result);
      loaderBatch := loaderBatch[1..];
      Record(was, LoaderHandle(result));
    }

    /** The answer to a load; nothing for the other messages. */
    method PrivAnswer(m: Msg, result: LoaderResult)
      modifies this`toEngine, this`failed, this`quit
      ensures var loads := m.Load? || m.LoadContinued?;
              && toEngine == (if loads then old(toEngine) + [Answer(m.descr, result)] else old(toEngine))
              && failed == (if loads && result == Failed then old(failed) + {m.descr} else old(failed))
              && quit == (old(quit) || m.Die?)
    {
      hide Answer;
      if m.Load? || m.LoadContinued? {
        toEngine := toEngine + [Answer(m.descr, result)];
        failed := if result == Failed then failed + {m.descr} else failed;
      } else if m.Die? {
        quit := true;
      }
    }

    /** One batch of the loader thread: up to sixty-four messages, all handled even after one that says
        to stop. */
    method LoaderThreadBatch(results: seq<LoaderResult>)
      requires Valid() && loaderBatch == [] && !quit && |results| == LOADER_BATCH
      modifies this
      ensures Valid() && rank == old(rank) && loaderBatch == []
      ensures State() == LoaderAll(LoaderPopped(old(State())), results)
      ensures var n := if |old(toLoader)| < 64 then |old(toLoader)| else 64;
              && toLoader == old(toLoader)[n..] && toEngine == old(toEngine) + Answers(old(toLoader)[..n], results)
              && res == old(res) && (quit <==> Die in old(toLoader)[..n])
    {
      hide RunEndsAt, Inv, Shape, LoaderProtocol.Next, Enabled, LoaderHandled, LoaderAll;
      ghost var was := State();
      LoaderPopIs(was);
      var n := Min(LOADER_BATCH, |toLoader|);
      loaderBatch, toLoader := toLoader[..n], toLoader[n..];
      Record(was, LoaderPop);
      ghost var popped := State();
      LoaderAnswers(popped, results);
      var i := 0;
      while i < n
        invariant Valid() && rank == old(rank) && i <= n && |loaderBatch| == n - i
        invariant LoaderAll(State(), results[i..]) == LoaderAll(popped, results)
      {
        LoaderAllStep(State(), results[i..]);
        assert results[i..][1..] == results[i + 1..];
        PrivLoad(results[i]);
        i := i + 1;
      }
      LoaderAllStep(State(), results[i..]);
    }

    /** `res2__get_or_schedule_load` with a timeout: schedules, then handles messages until the
        descriptor is ready or in error or the time is over. `rounds` is what the other side does
        meanwhile, one round for every time the clock is looked at; `asked` is the state once everything
        is scheduled, and `n` the rounds it takes. */
    method GetOrScheduleLoadWaiting(d: Id, rounds: seq<Round>) returns (ready: bool, ghost asked: State, ghost n: nat)
      requires Valid() && AssetsWhole(res) && d in res && d in rank && res[d].status != Deleting && engineBatch == []
      requires forall k :: 0 <= k < |rounds| ==> WellSized(rounds[k])
      modifies this
      ensures Valid() && rank == old(rank) && engineBatch == [] && res.Keys == old(res).Keys
      ensures ready <==> IsReady(res[d], notReady, d)
      ensures ready <==> res[d].status == Ready && (d in notReady ==> notReady[d] == 0)
      ensures Asked(old(res), asked.res, Under(old(res), old(notReady), d)) && Sent(old(State()), asked)
      ensures n <= |rounds| && State() == RoundsDone(asked, rounds[..n])
      ensures IsReady(old(res)[d], old(notReady), d) || old(res)[d].status == Error ==> n == 0
      ensures n < |rounds| ==> ready || res[d].status == Error
      ensures forall k :: 0 <= k < n ==> NotInError(RoundsDone(asked, rounds[..k]), d)
      ensures res[d].status != Unloaded
    {
      hide RunEndsAt, Inv, Shape, AssetsWhole, Asked, Under, Sent, RoundDone;
      ghost var s := State();
      ready := GetOrScheduleLoad(d);
      asked, n := State(), 0;
      AfterAsking(s, asked, notReady, d);
      assert rounds[..0] == [];
      if ready || res[d].status == Error {
        return;
      }
      var i := 0;
      while i < |rounds|
        invariant Valid() && rank == old(rank) && engineBatch == [] && res.Keys == old(res).Keys
        invariant !ready && !IsReady(res[d], notReady, d) && res[d].status != Unloaded && res[d].status != Error
        invariant n == i <= |rounds| && State() == RoundsDone(asked, rounds[..i])
        invariant forall k :: 0 <= k < i ==> NotInError(RoundsDone(asked, rounds[..k]), d)
      {
        OneMoreRound(asked, rounds, i);
        PrivRound(rounds[i]);
        i, n := i + 1, n + 1;
        ready := PrivIsReady(d);
        if ready || res[d].status == Error {
          return;
        }
      }
    }

    /** The loader thread may get a batch done; then the engine handles one. */
    method PrivRound(round: Round)
      requires Valid() && engineBatch == [] && WellSized(round)
      modifies this
      ensures Valid() && rank == old(rank) && engineBatch == [] && res.Keys == old(res).Keys
      ensures State() == RoundDone(old(State()), round)
      ensures forall e :: e in old(res) && old(res)[e].status != Unloaded ==> res[e].status != Unloaded
    {
      hide RunEndsAt, Inv, Shape, EngineAll, LoaderAll, EnginePopped, LoaderPopped;
      ghost var s := State();
      PopsKeepTable(s);
      if round.loaderRuns && !quit && loaderBatch == [] {
        LoaderAllKeeps(LoaderPopped(s), round.results);
        LoaderThreadBatch(round.results);
      }
      ghost var u := State();
      PopsKeepTable(u);
      EngineAllKeeps(EnginePopped(u), round.callbacks);
      FlushLoaderThreadMsg(round.callbacks);
    }
  }

  predicate WellSized(round: Round) {
    |round.callbacks| == ENGINE_BATCH && |round.results| == LOADER_BATCH
  }

  ghost predicate NotInError(s: State, d: Id) {
    d in s.res && s.res[d].status != Error
  }

  /** One round: a batch of the loader, if it runs, and one of the engine. */
  ghost function RoundDone(s: State, round: Round): State {
    var u := if round.loaderRuns && !s.quit && s.loaderBatch == []
             then LoaderAll(LoaderPopped(s), round.results) else s;
    EngineAll(EnginePopped(u), round.callbacks)
  }

  ghost function RoundsDone(s: State, rounds: seq<Round>): State {
    if rounds == [] then s else RoundDone(RoundsDone(s, rounds[..|rounds| - 1]), rounds[|rounds| - 1])
  }

  lemma OneMoreRound(s: State, rounds: seq<Round>, i: nat)
    requires i < |rounds|
    ensures RoundsDone(s, rounds[..i + 1]) == RoundDone(RoundsDone(s, rounds[..i]), rounds[i])
  {
    assert rounds[..i + 1][..i] == rounds[..i];
  }

  /** What happens while the engine waits once. */
  datatype Round = Round(loaderRuns: bool, results: seq<LoaderResult>, callbacks: seq<CallbackResult>)

  lemma AfterAsking(s: State, t: State, notReady: map<Id, nat>, d: Id)
    requires d in s.res && Asked(s.res, t.res, Under(s.res, notReady, d)) && Sent(s, t)
    ensures t.res.Keys == s.res.Keys && t.engineBatch == s.engineBatch
    ensures IsReady(t.res[d], notReady, d) <==> IsReady(s.res[d], notReady, d)
    ensures t.res[d].status != Unloaded
    ensures IsReady(s.res[d], notReady, d) || s.res[d].status == Error ==> t.res == s.res && t.toLoader == s.toLoader
  {
    hide Under, Visited, Below;
    UnderIs(s.res, notReady, d);
    NotVisited(s.res, notReady, d);
    var k := |s.toLoader|;
    assert k < |t.toLoader| ==> SentOne(s.res, t.res, t.toLoader[k]);
  }

  lemma PopsKeepTable(s: State)
    ensures EnginePopped(s).res == s.res && LoaderPopped(s).res == s.res && LoaderPopped(s).engineBatch == s.engineBatch
  {
  }

  lemma {:induction false} LoaderAllKeeps(s: State, results: seq<LoaderResult>)
    ensures LoaderAll(s, results).res == s.res && LoaderAll(s, results).engineBatch == s.engineBatch
    decreases |results|
  {
    hide LoaderHandled;
    if s.loaderBatch != [] && results != [] {
      LoadIs(s, results[0]);
      LoaderAllKeeps(LoaderHandled(s, results[0]), results[1..]);
    }
  }

  lemma {:induction false} EngineAllKeeps(s: State, callbacks: seq<CallbackResult>)
    ensures EngineAll(s, callbacks).res.Keys == s.res.Keys
    ensures forall e :: e in s.res && s.res[e].status != Unloaded ==> EngineAll(s, callbacks).res[e].status != Unloaded
    decreases |callbacks|
  {
    hide EngineHandled;
    if s.engineBatch != [] && callbacks != [] {
      EngineKeepsAsked(s, callbacks[0]);
      EngineAllKeeps(EngineHandled(s, callbacks[0]), callbacks[1..]);
    }
  }

  lemma EngineKeepsAsked(s: State, callback: CallbackResult)
    requires s.engineBatch != []
    ensures EngineHandled(s, callback).res.Keys == s.res.Keys
    ensures forall e :: e in s.res && s.res[e].status != Unloaded ==>
              EngineHandled(s, callback).res[e].status != Unloaded
  {
    var m, rest := s.engineBatch[0], s.(engineBatch := s.engineBatch[1..]);
    if m.FinishedOk? || m.WantCallback? { BackKeepsAsked(rest, m.descr, callback); }
    hide AfterCallback, LetGo;
  }

  lemma BackKeepsAsked(s: State, d: Id, callback: CallbackResult)
    ensures var t := LetGo(AfterCallback(s, d, callback), d, Loader);
            t.res.Keys == s.res.Keys
            && forall e :: e in s.res && s.res[e].status != Unloaded ==> t.res[e].status != Unloaded
  {
    var r := AfterCallback(s, d, callback);
    assert r.res.Keys == s.res.Keys && forall e :: e in s.res && s.res[e].status != Unloaded ==>
             r.res[e].status != Unloaded;
    hide AfterCallback;
  }

  lemma EngineAllStep(s: State, callbacks: seq<CallbackResult>)
    ensures s.engineBatch == [] ==> EngineAll(s, callbacks) == s
    ensures s.engineBatch != [] && callbacks != [] ==>
              EngineAll(s, callbacks) == EngineAll(EngineHandled(s, callbacks[0]), callbacks[1..])
  {
    hide EngineHandled;
  }

  lemma LoaderAllStep(s: State, results: seq<LoaderResult>)
    ensures s.loaderBatch == [] ==> LoaderAll(s, results) == s
    ensures s.loaderBatch != [] && results != [] ==>
              LoaderAll(s, results) == LoaderAll(LoaderHandled(s, results[0]), results[1..])
  {
    hide LoaderHandled;
  }

  lemma PopIs(s: State)
    requires s.engineBatch == []
    ensures Enabled(s, EnginePop) && Next(s, EnginePop) == EnginePopped(s)
  {
  }

  lemma LoaderPopIs(s: State)
    requires s.loaderBatch == [] && !s.quit
    ensures Enabled(s, LoaderPop) && Next(s, LoaderPop) == LoaderPopped(s)
  {
  }

  lemma LoadIs(s: State, result: LoaderResult)
    requires s.loaderBatch != []
    ensures Enabled(s, LoaderHandle(result)) && Next(s, LoaderHandle(result)) == LoaderHandled(s, result)
    ensures var m, rest := s.loaderBatch[0], s.(loaderBatch := s.loaderBatch[1..]);
            LoaderHandled(s, result)
            == if m.Load? || m.LoadContinued? then
                 rest.(toEngine := s.toEngine + [Answer(m.descr, result)],
                       failed := if result == Failed then s.failed + {m.descr} else s.failed)
               else if m.Die? then rest.(quit := true) else rest
  {
    hide Answer;
  }

  lemma HandleIs(s: State, callback: CallbackResult)
    requires s.engineBatch != []
    ensures Enabled(s, EngineHandle(callback)) && Next(s, EngineHandle(callback)) == EngineHandled(s, callback)
  {
  }

  lemma HeadCanGo(s: State)
    requires Inv(s) && s.engineBatch != []
    ensures s.engineBatch[0].FinishedOk? || s.engineBatch[0].WantCallback? ==>
              var d := s.engineBatch[0].descr; CanRelease(s, d) && s.res[d].status != Deleting
  {
    hide Inv, CanRelease;
    HeadIsPinned(s);
  }

  /** The callback's status, and the loader's reference given back. */
  ghost function BackAgain(s: State, d: Id, callback: CallbackResult): State
    requires CanRelease(s, d)
  {
    s.(res := s.res[d := LessOne(s.res[d], callback)],
    holders := s.holders[d := s.holders[d] - multiset{Loader}])
  }

  lemma BackIs(s: State, d: Id, callback: CallbackResult)
    requires CanRelease(s, d)
    ensures d in s.res && d in s.holders && s.res[d].refCount > 0
    ensures var t := BackAgain(s, d, callback);
            t == s.(res := t.res, holders := t.holders)
            && t.res == s.res[d := LessOne(s.res[d], callback)]
            && t.holders == s.holders[d := s.holders[d] - multiset{Loader}]
    ensures callback == Pending ==> s.res[d := s.res[d].(status := StatusAfter(s.res[d].status, callback))] == s.res
  {
  }

  lemma FinishedIs(s: State, callback: CallbackResult, d: Id)
    requires s.engineBatch != [] && s.engineBatch[0] == FinishedOk(d) && CanRelease(s, d)
    ensures EngineHandled(s, callback) == BackAgain(s, d, callback).(engineBatch := s.engineBatch[1..])
  {
    CallbackAndRelease(s.(engineBatch := s.engineBatch[1..]), d, callback);
    hide LetGo, AfterCallback;
  }

  lemma CallbackIs(s: State, callback: CallbackResult, d: Id)
    requires s.engineBatch != [] && s.engineBatch[0] == WantCallback(d) && CanRelease(s, d)
    ensures EngineHandled(s, callback)
            == if callback == Pending then
                 s.(engineBatch := s.engineBatch[1..], toLoader := s.toLoader + [LoadContinued(d)])
               else
                 BackAgain(s, d, callback)
                 .(engineBatch := s.engineBatch[1..], toLoader := s.toLoader + [LoadFinished(d)])
  {
    CallbackAndRelease(s.(engineBatch := s.engineBatch[1..]), d, callback);
    hide LetGo, AfterCallback;
  }

  lemma KoIs(s: State, callback: CallbackResult)
    requires s.engineBatch != [] && !s.engineBatch[0].FinishedOk? && !s.engineBatch[0].WantCallback?
    ensures EngineHandled(s, callback) == s.(engineBatch := s.engineBatch[1..])
  {
  }

  lemma ReleasingHas(s: State, t: State, d: Id)
    requires WellFormed(s) && WellFormed(t) && Releasing(s, t, d)
    ensures d in t.res && t.res[d].status == Deleting
  {
  }

  lemma ReleasedKeeps(v: State, t: State, c: Id, d: Id)
    requires WellFormed(v) && WellFormed(t) && Released(v, t, c) && d in v.res && d in t.res
    ensures t.res[d].children == v.res[d].children
  {
  }

  lemma ReleasingActive(s: State, d: Id)
    requires Inv(s) && Enabled(s, DropRef(d))
    ensures s.res[d].status != Deleting
  {
    PinsAt(s, d);
  }

  ghost predicate RunEndsAt(run: seq<State>, steps: seq<Step>, s: State) {
    IsRun(run, steps) && run[|steps|] == s
  }

  lemma RunMore(run: seq<State>, steps: seq<Step>, step: Step)
    requires IsRun(run, steps) && Enabled(run[|steps|], step)
    ensures IsRun(run + [Next(run[|steps|], step)], steps + [step])
  {
    hide Enabled, Next;
  }
}
