/** The engine and its loader thread as one machine of interleaved steps: resources with reference
    counts, two message queues, and on either side the batch of messages popped and not handled
    yet. */
module LoaderProtocol {
  import opened Arith

  type Id = nat

  datatype Uid = NoUid | AssetUid | SignatureUid
  datatype Status = Ready | Unloaded | Loading | Deleting | Error

  datatype Res = Res(uid: Uid, status: Status, refCount: nat, children: seq<Id>)

  /** Who a reference belongs to. */
  datatype Holder = Client | Parent(p: Id) | Loader

  datatype Msg =
    | Load(descr: Id) | LoadContinued(descr: Id) | LoadFinished(descr: Id) | Die
    | FinishedOk(descr: Id) | WantCallback(descr: Id) | FinishedKo

  /** What a loader answers, and what the engine's callback answers; a resource type without a
      callback counts as a failure that leaves the status as it is. */
  datatype LoaderResult = Success | Callback | Failed
  datatype CallbackResult = NoFunction | Done | DoneBadly | Pending

  const ENGINE_BATCH := 16
  const LOADER_BATCH := 64

  datatype State = State(
    res: map<Id, Res>, holders: map<Id, multiset<Holder>>,
    toLoader: seq<Msg>, loaderBatch: seq<Msg>, toEngine: seq<Msg>, engineBatch: seq<Msg>,
    quit: bool, loads: multiset<Id>, failed: set<Id>, next: Id)

  // ---------------------------------------------------------------- messages under way

  /** The messages whose handling goes on with the descriptor they name. `LoadFinished` is not one of
      them: it is sent after the loader's reference was given back. */
  function Named(m: Msg): multiset<Id> {
    match m
    case Load(d) => multiset{d}
    case LoadContinued(d) => multiset{d}
    case FinishedOk(d) => multiset{d}
    case WantCallback(d) => multiset{d}
    case _ => multiset{}
  }

  function NamedIn(q: seq<Msg>): multiset<Id> {
    if q == [] then multiset{} else Named(q[0]) + NamedIn(q[1..])
  }

  function Flight(s: State): multiset<Id> {
    NamedIn(s.toLoader) + NamedIn(s.loaderBatch) + NamedIn(s.toEngine) + NamedIn(s.engineBatch)
  }

  lemma {:induction false} NamedJoin(a: seq<Msg>, b: seq<Msg>)
    ensures NamedIn(a + b) == NamedIn(a) + NamedIn(b)
  {
    if a == [] {
      assert a + b == b;
    } else {
      assert (a + b)[1..] == a[1..] + b;
      NamedJoin(a[1..], b);
    }
  }

  lemma NamedPush(q: seq<Msg>, m: Msg)
    ensures NamedIn(q + [m]) == NamedIn(q) + Named(m)
  {
    NamedJoin(q, [m]);
    assert [m][1..] == [];
  }

  lemma NamedSplit(q: seq<Msg>, n: nat)
    requires n <= |q|
    ensures NamedIn(q) == NamedIn(q[..n]) + NamedIn(q[n..])
  {
    hide NamedIn;
    NamedJoin(q[..n], q[n..]);
    assert q == q[..n] + q[n..];
  }

  // ---------------------------------------------------------------- the invariant

  /** The count of a descriptor is the number of those who hold it. */
  ghost predicate Ledger(res: map<Id, Res>, holders: map<Id, multiset<Holder>>) {
    && holders.Keys == res.Keys
    && forall d :: d in res ==> res[d].refCount == |holders[d]|
  }

  /** A parent holds a child once for every place the child has in its list. */
  ghost predicate Edges(res: map<Id, Res>, holders: map<Id, multiset<Holder>>) {
    forall d, p :: d in holders ==> holders[d][Parent(p)] == if p in res then multiset(res[p].children)[d] else 0
  }

  ghost predicate ChildrenExist(res: map<Id, Res>) {
    forall p, c :: p in res && c in res[p].children ==> c in res
  }

  /** The loader holds at most one reference, and only of something that is loading; what is being
      deleted is held by nobody; only signatures somebody holds wait to be loaded. */
  ghost predicate Pins(res: map<Id, Res>, holders: map<Id, multiset<Holder>>) {
    forall d :: d in res && d in holders ==>
                  && holders[d][Loader] <= 1
                  && (Loader in holders[d] ==> res[d].status == Loading)
                  && (res[d].status == Deleting ==> holders[d] == multiset{})
                  && (res[d].status == Unloaded ==> res[d].uid == SignatureUid && holders[d] != multiset{})
  }

  /** The loader's reference goes with exactly one message, until it is given back; it is never given
      back after a failure. */
  ghost predicate Mail(flight: multiset<Id>, failed: set<Id>, holders: map<Id, multiset<Holder>>) {
    && (forall d :: flight[d] <= 1)
    && (forall d :: d in flight || d in failed <==> d in holders && Loader in holders[d])
    && forall d :: d in failed ==> d !in flight
  }

  /** A descriptor asked for once is never again in the state from which it could be asked for. */
  ghost predicate LoadsOnce(res: map<Id, Res>, loads: multiset<Id>, next: Id) {
    && (forall d :: d in res ==> d < next)
    && (forall d :: loads[d] <= 1)
    && (forall d :: d in loads ==> d < next)
    && forall d :: d in res && res[d].status == Unloaded ==> d !in loads
  }

  predicate ForLoader(m: Msg) {
    m.Load? || m.LoadContinued? || m.LoadFinished? || m.Die?
  }

  /** No message travels the wrong way. */
  ghost predicate Sides(s: State) {
    && (forall m :: m in s.toLoader || m in s.loaderBatch ==> ForLoader(m))
    && (forall m :: m in s.toEngine || m in s.engineBatch ==> !ForLoader(m))
  }

  ghost predicate Inv(s: State) {
    && Sides(s)
    && Ledger(s.res, s.holders) && Edges(s.res, s.holders) && ChildrenExist(s.res) && Pins(s.res, s.holders)
    && Mail(Flight(s), s.failed, s.holders) && LoadsOnce(s.res, s.loads, s.next)
  }

  // ---------------------------------------------------------------- the steps

  datatype Step =
    | Create(uid: Uid)
    | IncRef(d: Id)
    | AddChild(p: Id, c: Id)
    | RemoveChild(p: Id, c: Id)
    | DropRef(d: Id)
    | Destroy(d: Id)
    | Schedule(d: Id)
    | EnginePop
    | EngineHandle(callback: CallbackResult)
    | SendDie
    | LoaderPop
    | LoaderHandle(result: LoaderResult)

  /** Signatures have to be loaded; assets and what was made by hand are ready. */
  function FirstStatus(uid: Uid): Status {
    if uid == SignatureUid then Unloaded else Ready
  }

  /** A new descriptor starts with one reference. */
  function Created(s: State, uid: Uid): State {
    s.(res := s.res[s.next := Res(uid, FirstStatus(uid), 1, [])],
    holders := s.holders[s.next := multiset{Client}],
    next := s.next + 1)
  }

  function Held(s: State, d: Id, holder: Holder): State
    requires d in s.res && d in s.holders
  {
    s.(res := s.res[d := s.res[d].(refCount := s.res[d].refCount + 1)],
    holders := s.holders[d := s.holders[d] + multiset{holder}])
  }

  /** `CanRelease` is asserted by the engine; HeadIsPinned and DropCounts prove it never fails. */
  predicate CanRelease(s: State, d: Id) {
    d in s.res && d in s.holders && s.res[d].refCount > 0
  }

  function LetGo(s: State, d: Id, holder: Holder): State
  {
    if !CanRelease(s, d) then s
    else s.(res := s.res[d := s.res[d].(refCount := s.res[d].refCount - 1)],
    holders := s.holders[d := s.holders[d] - multiset{holder}])
  }

  function InStatus(s: State, d: Id, status: Status): State {
    if d !in s.res then s
    else s.(res := s.res[d := s.res[d].(status := status)])
  }

  function WithChildren(s: State, p: Id, children: seq<Id>): State
    requires p in s.res
  {
    s.(res := s.res[p := s.res[p].(children := children)])
  }

  /** A reference changes hands. */
  function Moved(s: State, d: Id, from: Holder, to: Holder): State
    requires d in s.holders
  {
    s.(holders := s.holders[d := s.holders[d] - multiset{from} + multiset{to}])
  }

  /** The position of the first `x`, or the length. */
  function IndexOf(q: seq<Id>, x: Id): (i: nat)
    ensures i <= |q| && (i < |q| ==> q[i] == x) && (i < |q| <==> x in q)
  {
    if q == [] then 0 else if q[0] == x then 0 else 1 + IndexOf(q[1..], x)
  }

  function Without(q: seq<Id>, x: Id): seq<Id>
    requires x in q
  {
    q[..IndexOf(q, x)] + q[IndexOf(q, x) + 1..]
  }

  /** A client gives up its reference; the last one starts the deletion. */
  function Dropped(s: State, d: Id): State
  {
    var t := LetGo(s, d, Client);
    if d in t.res && t.res[d].refCount == 0 then InStatus(t, d, Deleting) else t
  }

  function Destroyed(s: State, d: Id): State {
    s.(res := s.res - {d}, holders := s.holders - {d})
  }

  function Scheduled(s: State, d: Id): State
    requires d in s.res && d in s.holders
  {
    Held(InStatus(s, d, Loading), d, Loader).(toLoader := s.toLoader + [Load(d)], loads := s.loads + multiset{d})
  }

  function AfterCallback(s: State, d: Id, callback: CallbackResult): State {
    match callback
    case Done => InStatus(s, d, Ready)
    case DoneBadly => InStatus(s, d, Error)
    case _ => s
  }

  /** The engine handles the first message of its batch. */
  function EngineHandled(s: State, callback: CallbackResult): State
    requires s.engineBatch != []
  {
    var rest := s.(engineBatch := s.engineBatch[1..]);
    match s.engineBatch[0]
    case FinishedOk(d) => LetGo(AfterCallback(rest, d, callback), d, Loader)
    case WantCallback(d) =>
      if callback == Pending then rest.(toLoader := s.toLoader + [LoadContinued(d)])
      else LetGo(AfterCallback(rest, d, callback), d, Loader).(toLoader := s.toLoader + [LoadFinished(d)])
    case _ => rest
  }

  function Answer(d: Id, result: LoaderResult): Msg {
    match result
    case Success => FinishedOk(d)
    case Callback => WantCallback(d)
    case Failed => FinishedKo
  }

  /** The loader handles the first message of its batch. */
  function LoaderHandled(s: State, result: LoaderResult): State
    requires s.loaderBatch != []
  {
    var m, rest := s.loaderBatch[0], s.(loaderBatch := s.loaderBatch[1..]);
    match m
    case Load(d) => Answered(rest, d, result)
    case LoadContinued(d) => Answered(rest, d, result)
    case Die => rest.(quit := true)
    case _ => rest
  }

  function Answered(s: State, d: Id, result: LoaderResult): State {
    s.(toEngine := s.toEngine + [Answer(d, result)], failed := if result == Failed then s.failed + {d} else s.failed)
  }

  function EnginePopped(s: State): State {
    var n := Min(ENGINE_BATCH, |s.toEngine|);
    s.(toEngine := s.toEngine[n..], engineBatch := s.toEngine[..n])
  }

  function LoaderPopped(s: State): State {
    var n := Min(LOADER_BATCH, |s.toLoader|);
    s.(toLoader := s.toLoader[n..], loaderBatch := s.toLoader[..n])
  }

  // ---------------------------------------------------------------- one step of the machine

  ghost predicate Enabled(s: State, step: Step) {
    match step
    case Create(_) => true
    case IncRef(d) => d in s.res && d in s.holders && s.res[d].status != Deleting
    case AddChild(p, c) => p in s.res && c in s.res && c in s.holders && Client in s.holders[c]
    case RemoveChild(p, c) => p in s.res && c in s.holders && c in s.res[p].children
    case DropRef(d) => d in s.res && d in s.holders && Client in s.holders[d]
    case Destroy(d) => d in s.res && s.res[d].status == Deleting && s.res[d].children == []
    case Schedule(d) => d in s.res && d in s.holders && s.res[d].status == Unloaded
    case EnginePop => s.engineBatch == []
    case EngineHandle(_) => s.engineBatch != []
    case SendDie => true
    case LoaderPop => s.loaderBatch == [] && !s.quit
    case LoaderHandle(_) => s.loaderBatch != []
  }

  ghost function Next(s: State, step: Step): State
    requires Enabled(s, step)
  {
    match step
    case Create(uid) => Created(s, uid)
    case IncRef(d) => Held(s, d, Client)
    case AddChild(p, c) => WithChildren(Moved(s, c, Client, Parent(p)), p, [c] + s.res[p].children)
    case RemoveChild(p, c) => WithChildren(Moved(s, c, Parent(p), Client), p, Without(s.res[p].children, c))
    case DropRef(d) => Dropped(s, d)
    case Destroy(d) => Destroyed(s, d)
    case Schedule(d) => Scheduled(s, d)
    case EnginePop => EnginePopped(s)
    case EngineHandle(callback) => EngineHandled(s, callback)
    case SendDie => s.(toLoader := s.toLoader + [Die])
    case LoaderPop => LoaderPopped(s)
    case LoaderHandle(result) => LoaderHandled(s, result)
  }

  lemma DropCounts(s: State, d: Id)
    requires Inv(s) && Enabled(s, DropRef(d))
    ensures CanRelease(s, d)
  {
    hide Sides, Edges, ChildrenExist, Pins, Mail, LoadsOnce, Flight;
    Counted(s.holders[d], Client);
  }

  lemma Counted(m: multiset<Holder>, h: Holder)
    requires h in m
    ensures |m| > 0 && |m - multiset{h}| == |m| - 1
  {
    assert m == (m - multiset{h}) + multiset{h};
  }

  /** The descriptor the engine is about to handle is there and is held by the loader. */
  lemma HeadIsPinned(s: State)
    requires Inv(s) && s.engineBatch != []
    ensures forall d :: d in Named(s.engineBatch[0]) ==>
              CanRelease(s, d) && Loader in s.holders[d] && s.res[d].status == Loading
  {
    hide Edges, ChildrenExist, LoadsOnce, NamedIn;
    forall d | d in Named(s.engineBatch[0])
      ensures CanRelease(s, d) && Loader in s.holders[d] && s.res[d].status == Loading
    {
      HeadInFlight(s.engineBatch, d);
      assert d in Flight(s);
      Counted(s.holders[d], Loader);
    }
  }

  lemma HeadInFlight(q: seq<Msg>, d: Id)
    requires q != [] && d in Named(q[0])
    ensures d in NamedIn(q)
  {
  }
}
