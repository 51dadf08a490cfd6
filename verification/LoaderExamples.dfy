/** Runs of the loader protocol that leave a descriptor behind, or a message about one that is gone. */
module LoaderExamples {
  import opened Arith
  import opened LoaderProtocol
  import opened LoaderSteps

  /** One descriptor, a signature; `mail` is where its message is. */
  function Alone(status: Status, holders: multiset<Holder>, toLoader: seq<Msg>, loaderBatch: seq<Msg>,
                 toEngine: seq<Msg>, engineBatch: seq<Msg>, loads: multiset<Id>): State {
    LoaderProtocol.State(map[0 := Res(SignatureUid, status, |holders|, [])], map[0 := holders],
                         toLoader, loaderBatch, toEngine, engineBatch, false, loads, {}, 1)
  }

  const LOADED := multiset{0 as Id}
  const BOTH := multiset{Client, Loader}
  const PINNED := multiset{Loader}

  /** What the loader answers, and the message the engine then gets. */
  predicate GivesBackBy(result: LoaderResult) {
    result == Success || result == Callback
  }

  function Steps(result: LoaderResult): seq<Step> {
    [Step.Create(SignatureUid), Schedule(0), DropRef(0), LoaderPop, LoaderHandle(result), EnginePop,
     EngineHandle(CallbackResult.Done)]
  }

  function States(result: LoaderResult): seq<State> {
    var m := Answer(0, result);
    [START,
     Alone(Unloaded, multiset{Client}, [], [], [], [], multiset{}),
     Alone(Loading, BOTH, [Load(0)], [], [], [], LOADED),
     Alone(Loading, PINNED, [Load(0)], [], [], [], LOADED),
     Alone(Loading, PINNED, [], [Load(0)], [], [], LOADED),
     Alone(Loading, PINNED, [], [], [m], [], LOADED),
     Alone(Loading, PINNED, [], [], [], [m], LOADED),
     Alone(Ready, multiset{}, if result == Success then [] else [LoadFinished(0)], [], [], [], LOADED)]
  }

  /** A client asks for a load and releases the descriptor while it is under way: after either message
      of success the descriptor is ready, nobody holds it, and it is still there. */
  lemma ForgottenRun(result: LoaderResult)
    requires GivesBackBy(result)
    ensures IsRun(States(result), Steps(result))
    ensures GivesBack(States(result)[6], CallbackResult.Done, 0)
    ensures var t := States(result)[7]; 0 in t.res && t.res[0].refCount == 0 && t.res[0].status == Ready
  {
    var run, steps := States(result), Steps(result);
    Born();
    Asked();
    LetDown();
    Popped(result);
    Answered(result);
    Done(Answer(0, result));
    hide Alone, Follows, Answer;
    assert Follows(run[0], steps[0], run[1]) && Follows(run[1], steps[1], run[2]) && Follows(run[2], steps[2], run[3]);
    RunFromSteps(run, steps);
  }

  /** A client asks for a load and lets go, and the load fails: the descriptor is loading, held by the loader
      alone, and no message names it. */
  lemma FailedRun()
    ensures var steps := [Step.Create(SignatureUid), Schedule(0), DropRef(0), LoaderPop, LoaderHandle(Failed)];
            var run := States(Success)[..5] + [FAILED_STATE];
            IsRun(run, steps)
    ensures 0 in FAILED_STATE.failed && FAILED_STATE.holders[0] == PINNED && FAILED_STATE.toEngine == [FinishedKo]
  {
    var steps := [Step.Create(SignatureUid), Schedule(0), DropRef(0), LoaderPop, LoaderHandle(Failed)];
    var run := States(Success)[..5] + [FAILED_STATE];
    Born();
    Asked();
    LetDown();
    Popped(Success);
    FailsNow();
    hide Alone, Follows;
    assert Follows(run[0], steps[0], run[1]) && Follows(run[1], steps[1], run[2]) && Follows(run[2], steps[2], run[3]);
    assert Follows(run[3], steps[3], run[4]) && Follows(run[4], steps[4], run[5]);
    RunFromSteps(run, steps);
  }

  const FAILED_STATE: State :=
    Alone(Loading, PINNED, [], [], [FinishedKo], [], LOADED).(failed := {0})

  lemma FailsNow()
    ensures Follows(Alone(Loading, PINNED, [], [Load(0)], [], [], LOADED), LoaderHandle(Failed), FAILED_STATE)
  {
  }

  lemma RunFromSteps(run: seq<State>, steps: seq<Step>)
    requires |run| == |steps| + 1 && run[0] == START
    requires forall i :: 0 <= i < |steps| ==> Follows(run[i], steps[i], run[i + 1])
    ensures IsRun(run, steps)
  {
    hide Enabled, Next;
    forall i | 0 <= i < |steps|
      ensures Enabled(run[i], steps[i]) && run[i + 1] == Next(run[i], steps[i])
    {
      assert Follows(run[i], steps[i], run[i + 1]);
    }
  }

  ghost predicate Follows(s: State, step: Step, t: State) {
    Enabled(s, step) && t == Next(s, step)
  }

  lemma Born()
    ensures Follows(START, Step.Create(SignatureUid), Alone(Unloaded, multiset{Client}, [], [], [], [], multiset{}))
  {
  }

  lemma Asked()
    ensures Follows(Alone(Unloaded, multiset{Client}, [], [], [], [], multiset{}), Schedule(0),
                    Alone(Loading, BOTH, [Load(0)], [], [], [], LOADED))
  {
    var s := Alone(Unloaded, multiset{Client}, [], [], [], [], multiset{});
    assert s.holders[0] + multiset{Loader} == BOTH;
    assert s.loads + multiset{0} == LOADED;
    hide Enabled;
    assert Scheduled(s, 0).res == map[0 := Res(SignatureUid, Loading, 2, [])];
    assert Scheduled(s, 0).holders == map[0 := BOTH];
    assert Scheduled(s, 0).toLoader == [Load(0)];
    Enables(s);
  }

  lemma Enables(s: State)
    requires 0 in s.res && 0 in s.holders && s.res[0].status == Unloaded
    ensures Enabled(s, Schedule(0)) && Next(s, Schedule(0)) == Scheduled(s, 0)
  {
  }

  lemma LetDown()
    ensures Follows(Alone(Loading, BOTH, [Load(0)], [], [], [], LOADED), DropRef(0),
                    Alone(Loading, PINNED, [Load(0)], [], [], [], LOADED))
  {
    var s := Alone(Loading, BOTH, [Load(0)], [], [], [], LOADED);
    TwoHolders();
    OneLess(s);
    hide Enabled, Next, BOTH, PINNED;
    assert s.res[0 := s.res[0].(refCount := 1)] == map[0 := Res(SignatureUid, Loading, 1, [])];
    assert s.holders[0 := PINNED] == map[0 := PINNED];
  }

  lemma TwoHolders()
    ensures |BOTH| == 2 && BOTH - multiset{Client} == PINNED && |PINNED| == 1 && Client in BOTH
  {
  }

  lemma OneLess(s: State)
    requires 0 in s.res && 0 in s.holders && Client in s.holders[0] && s.res[0].refCount == 2
    ensures Follows(s, DropRef(0), s.(res := s.res[0 := s.res[0].(refCount := 1)],
                                      holders := s.holders[0 := s.holders[0] - multiset{Client}]))
  {
  }

  lemma Popped(result: LoaderResult)
    ensures Follows(States(result)[3], LoaderPop, States(result)[4])
    ensures Follows(States(result)[5], EnginePop, States(result)[6])
  {
    PoppedBy(PINNED, Answer(0, result));
  }

  lemma PoppedBy(h: multiset<Holder>, m: Msg)
    ensures Follows(Alone(Loading, h, [Load(0)], [], [], [], LOADED), LoaderPop,
                    Alone(Loading, h, [], [Load(0)], [], [], LOADED))
    ensures Follows(Alone(Loading, h, [], [], [m], [], LOADED), EnginePop,
                    Alone(Loading, h, [], [], [], [m], LOADED))
  {
  }

  lemma Answered(result: LoaderResult)
    requires GivesBackBy(result)
    ensures Follows(Alone(Loading, PINNED, [], [Load(0)], [], [], LOADED), LoaderHandle(result),
                    Alone(Loading, PINNED, [], [], [Answer(0, result)], [], LOADED))
  {
    AnsweredBy(PINNED, result);
  }

  lemma AnsweredBy(h: multiset<Holder>, result: LoaderResult)
    requires GivesBackBy(result)
    ensures Follows(Alone(Loading, h, [], [Load(0)], [], [], LOADED), LoaderHandle(result),
                    Alone(Loading, h, [], [], [Answer(0, result)], [], LOADED))
  {
    hide Answer;
  }

  lemma Done(m: Msg)
    requires m == FinishedOk(0) || m == WantCallback(0)
    ensures Follows(Alone(Loading, PINNED, [], [], [], [m], LOADED), EngineHandle(CallbackResult.Done),
                    Alone(Ready, multiset{}, if m.FinishedOk? then [] else [LoadFinished(0)], [], [], [], LOADED))
  {
    assert PINNED - multiset{Loader} == multiset{};
    DoneBy(PINNED, multiset{}, m);
  }

  lemma DoneBy(h: multiset<Holder>, left: multiset<Holder>, m: Msg)
    requires (m == FinishedOk(0) || m == WantCallback(0)) && Loader in h && left == h - multiset{Loader}
    ensures Follows(Alone(Loading, h, [], [], [], [m], LOADED), EngineHandle(CallbackResult.Done),
                    Alone(Ready, left, if m.FinishedOk? then [] else [LoadFinished(0)], [], [], [], LOADED))
  {
    var s := Alone(Loading, h, [], [], [], [m], LOADED);
    assert s.engineBatch[1..] == [];
    GivenBack(s.(engineBatch := []), h, left);
    hide LetGo, AfterCallback;
  }

  lemma GivenBack(s: State, h: multiset<Holder>, left: multiset<Holder>)
    requires s == Alone(Loading, h, [], [], [], [], LOADED) && Loader in h && left == h - multiset{Loader}
    ensures LetGo(AfterCallback(s, 0, CallbackResult.Done), 0, Loader)
            == Alone(Ready, left, [], [], [], [], LOADED)
  {
    Counted(h, Loader);
    CallbackAndRelease(s, 0, CallbackResult.Done);
    hide LetGo, AfterCallback;
    assert s.res[0 := Res(SignatureUid, Ready, |left|, [])] == map[0 := Res(SignatureUid, Ready, |left|, [])];
    assert s.holders[0 := left] == map[0 := left];
  }

  // ---------------------------------------------------------------- a message that comes too late

  /** A client lets go of a descriptor that was loaded with a callback before the loader has been told that the
      engine is done with the file: the loader then handles a message that names a descriptor which is no
      longer there. */
  lemma FinishedTooLate()
    ensures IsRun(LateStates(), LateSteps())
    ensures var t := LateStates()[9]; t.loaderBatch == [LoadFinished(0)] && 0 !in t.res
  {
    TakenUp();
    LoadedInTime();
    LastGone();
    Handed();
    hide Alone, Follows;
    LateFollows();
    hide LateStates, LateSteps;
    RunFromSteps(LateStates(), LateSteps());
  }

  lemma TakenUp()
    ensures Follows(LateStates()[0], Step.Create(SignatureUid), LateStates()[1])
    ensures Follows(LateStates()[1], Schedule(0), LateStates()[2])
    ensures Follows(LateStates()[2], LoaderPop, LateStates()[3])
  {
    Born();
    Asked();
    PoppedBy(BOTH, WantCallback(0));
    hide Alone, Follows, BOTH;
  }

  lemma LoadedInTime()
    ensures Follows(LateStates()[3], LoaderHandle(Callback), LateStates()[4])
    ensures Follows(LateStates()[4], EnginePop, LateStates()[5])
    ensures Follows(LateStates()[5], EngineHandle(CallbackResult.Done), LateStates()[6])
  {
    PoppedBy(BOTH, WantCallback(0));
    AnsweredBy(BOTH, Callback);
    assert Answer(0, Callback) == WantCallback(0);
    assert BOTH - multiset{Loader} == multiset{Client} && Loader in BOTH;
    hide Alone, Follows, Answer, BOTH;
    DoneBy(BOTH, multiset{Client}, WantCallback(0));
  }

  function LateSteps(): seq<Step> {
    [Step.Create(SignatureUid), Schedule(0), LoaderPop, LoaderHandle(Callback), EnginePop,
     EngineHandle(CallbackResult.Done), DropRef(0), Destroy(0), LoaderPop]
  }

  const GONE: State := LoaderProtocol.State(map[], map[], [LoadFinished(0)], [], [], [], false, LOADED, {}, 1)

  function LateStates(): seq<State> {
    [START,
     Alone(Unloaded, multiset{Client}, [], [], [], [], multiset{}),
     Alone(Loading, BOTH, [Load(0)], [], [], [], LOADED),
     Alone(Loading, BOTH, [], [Load(0)], [], [], LOADED),
     Alone(Loading, BOTH, [], [], [WantCallback(0)], [], LOADED),
     Alone(Loading, BOTH, [], [], [], [WantCallback(0)], LOADED),
     Alone(Ready, multiset{Client}, [LoadFinished(0)], [], [], [], LOADED),
     Alone(Deleting, multiset{}, [LoadFinished(0)], [], [], [], LOADED),
     GONE,
     GONE.(toLoader := [], loaderBatch := [LoadFinished(0)])]
  }

  lemma LateFollows()
    requires Follows(LateStates()[0], Step.Create(SignatureUid), LateStates()[1])
    requires Follows(LateStates()[1], Schedule(0), LateStates()[2])
    requires Follows(LateStates()[2], LoaderPop, LateStates()[3])
    requires Follows(LateStates()[3], LoaderHandle(Callback), LateStates()[4])
    requires Follows(LateStates()[4], EnginePop, LateStates()[5])
    requires Follows(LateStates()[5], EngineHandle(CallbackResult.Done), LateStates()[6])
    requires Follows(LateStates()[6], DropRef(0), LateStates()[7])
    requires Follows(LateStates()[7], Destroy(0), LateStates()[8])
    requires Follows(LateStates()[8], LoaderPop, LateStates()[9])
    ensures |LateStates()| == 10 && LateStates()[0] == START
    ensures forall i :: 0 <= i < |LateSteps()| ==> Follows(LateStates()[i], LateSteps()[i], LateStates()[i + 1])
  {
    hide Follows, Alone;
  }

  /** The last reference: the deletion starts, and ends. */
  lemma LastGone()
    ensures Follows(Alone(Ready, multiset{Client}, [LoadFinished(0)], [], [], [], LOADED), DropRef(0),
                    Alone(Deleting, multiset{}, [LoadFinished(0)], [], [], [], LOADED))
    ensures Follows(Alone(Deleting, multiset{}, [LoadFinished(0)], [], [], [], LOADED), Destroy(0), GONE)
  {
    var s := Alone(Ready, multiset{Client}, [LoadFinished(0)], [], [], [], LOADED);
    assert multiset{Client} - multiset{Client} == multiset{} && |s.holders[0]| == 1;
    var t := LetGo(s, 0, Client);
    assert t.res == map[0 := Res(SignatureUid, Ready, 0, [])] && t.holders == map[0 := multiset{}];
    assert Dropped(s, 0).res == map[0 := Res(SignatureUid, Deleting, 0, [])];
    var u := Alone(Deleting, multiset{}, [LoadFinished(0)], [], [], [], LOADED);
    assert u.res - {0} == map[] && u.holders - {0} == map[];
  }

  lemma Handed()
    ensures Follows(GONE, LoaderPop, GONE.(toLoader := [], loaderBatch := [LoadFinished(0)]))
  {
  }
}
