/** The message that tells the loader that the engine is done with a file is sent after the loader's reference
    was given back. When the descriptor it names is still there. */
module LoaderFinish {
  import opened LoaderProtocol
  import opened LoaderSteps

  /** The message is on its way to the loader, or in its batch. */
  ghost predicate Finishing(s: State, d: Id) {
    LoadFinished(d) in s.toLoader || LoadFinished(d) in s.loaderBatch
  }

  /** Whatever the loader holds was asked for, and so was what it is told to finish, which it does not hold
      any more. */
  ghost predicate Late(s: State) {
    && (forall d :: d in s.holders && Loader in s.holders[d] ==> d in s.loads)
    && forall d :: Finishing(s, d) ==> d in s.loads && (d in s.holders ==> Loader !in s.holders[d])
  }

  /** No step but `Schedule` gives the loader a reference, and none but the engine's answer sends the message. */
  ghost predicate Quiet(s: State, t: State) {
    && s.loads <= t.loads
    && (forall d :: d in t.holders && Loader in t.holders[d] ==> d in s.holders && Loader in s.holders[d])
    && forall d :: Finishing(t, d) ==> Finishing(s, d)
  }

  lemma QuietKeeps(s: State, t: State)
    requires Late(s) && Quiet(s, t)
    ensures Late(t)
  {
  }

  /** The engine gives a reference back, and may say so. */
  lemma GivesBackLate(s: State, callback: CallbackResult, d: Id)
    requires Inv(s) && Late(s) && GivesBack(s, callback, d)
    ensures Late(EngineHandled(s, callback))
  {
    HeadIsPinned(s);
    assert d in Named(s.engineBatch[0]);
    HeadPins(s);
    HandledFields(s, callback, d);
    EngineKeepsLoads(s, callback);
    hide Inv, EngineHandled, GivesBack, CanRelease, Named, Late;
    BackIsLate(s, EngineHandled(s, callback), d);
  }

  lemma HandledFields(s: State, callback: CallbackResult, d: Id)
    requires GivesBack(s, callback, d) && CanRelease(s, d)
    ensures var t := EngineHandled(s, callback);
            && t.holders == s.holders[d := s.holders[d] - multiset{Loader}] && t.loaderBatch == s.loaderBatch
            && (t.toLoader == s.toLoader || t.toLoader == s.toLoader + [LoadFinished(d)])
  {
    CallbackAndRelease(s.(engineBatch := s.engineBatch[1..]), d, callback);
    hide LetGo, AfterCallback;
  }

  lemma BackIsLate(s: State, t: State, d: Id)
    requires Late(s) && d in s.holders && Loader in s.holders[d] && s.holders[d][Loader] <= 1 && t.loads == s.loads
    requires t.holders == s.holders[d := s.holders[d] - multiset{Loader}] && t.loaderBatch == s.loaderBatch
    requires t.toLoader == s.toLoader || t.toLoader == s.toLoader + [LoadFinished(d)]
    ensures Late(t)
  {
  }

  /** Anything else it handles leaves the references alone and does not send that message. */
  lemma OtherMessageQuiet(s: State, callback: CallbackResult)
    requires s.engineBatch != [] && forall d :: !GivesBack(s, callback, d)
    ensures Quiet(s, EngineHandled(s, callback))
  {
    var m := s.engineBatch[0];
    assert !m.FinishedOk? by {
      if m.FinishedOk? { assert GivesBack(s, callback, m.descr); }
    }
    assert m.WantCallback? ==> callback == Pending by {
      if m.WantCallback? { assert !GivesBack(s, callback, m.descr); }
    }
  }

  lemma EngineHandlesLate(s: State, callback: CallbackResult)
    requires Inv(s) && Late(s) && s.engineBatch != []
    ensures Late(EngineHandled(s, callback))
  {
    hide Inv, Late, EngineHandled, GivesBack;
    if d :| GivesBack(s, callback, d) {
      GivesBackLate(s, callback, d);
    } else {
      OtherMessageQuiet(s, callback);
      QuietKeeps(s, EngineHandled(s, callback));
    }
  }

  lemma HeadPins(s: State)
    requires Inv(s)
    ensures forall d :: d in s.res && d in s.holders ==> s.holders[d][Loader] <= 1
  {
    hide Sides, Ledger, Edges, ChildrenExist, Mail, LoadsOnce;
  }

  lemma OtherStepsQuiet(s: State, step: Step)
    requires Enabled(s, step) && !step.EngineHandle? && !step.Schedule?
    ensures Quiet(s, Next(s, step))
  {
    hide Quiet, LoaderHandled, LoaderPopped, Dropped, Without;
    match step
    case LoaderHandle(result) => LoaderHandleQuiet(s, result);
    case LoaderPop => LoaderPopQuiet(s);
    case DropRef(d) => DropQuiet(s, d);
    case _ => SimpleQuiet(s, step);
  }

  lemma LoaderHandleQuiet(s: State, result: LoaderResult)
    requires s.loaderBatch != []
    ensures Quiet(s, LoaderHandled(s, result))
  {
  }

  lemma LoaderPopQuiet(s: State)
    requires s.loaderBatch == []
    ensures Quiet(s, LoaderPopped(s))
  {
  }

  lemma DropQuiet(s: State, d: Id)
    ensures Quiet(s, Dropped(s, d))
  {
  }

  lemma SimpleQuiet(s: State, step: Step)
    requires Enabled(s, step) && !step.EngineHandle? && !step.Schedule?
    requires !step.LoaderHandle? && !step.LoaderPop? && !step.DropRef?
    ensures Quiet(s, Next(s, step))
  {
    hide LoaderHandled, LoaderPopped, Dropped, Without, Scheduled, EngineHandled;
  }

  lemma ScheduleLate(s: State, d: Id)
    requires Inv(s) && Late(s) && Enabled(s, Schedule(d))
    ensures Late(Scheduled(s, d))
  {
    if d in s.loads { NotTwice(s, d); }
    ScheduledFields(s, d);
    hide Inv, Scheduled, Late;
    AskedIsLate(s, Scheduled(s, d), d);
  }

  lemma ScheduledFields(s: State, d: Id)
    requires d in s.res && d in s.holders
    ensures var t := Scheduled(s, d);
            && t.holders == s.holders[d := s.holders[d] + multiset{Loader}] && t.loads == s.loads + multiset{d}
            && t.toLoader == s.toLoader + [Load(d)] && t.loaderBatch == s.loaderBatch
  {
  }

  lemma AskedIsLate(s: State, t: State, d: Id)
    requires Late(s) && d in s.holders && d !in s.loads
    requires t.holders == s.holders[d := s.holders[d] + multiset{Loader}] && t.loads == s.loads + multiset{d}
    requires t.toLoader == s.toLoader + [Load(d)] && t.loaderBatch == s.loaderBatch
    ensures Late(t)
  {
  }

  lemma LateKept(s: State, step: Step)
    requires Inv(s) && Late(s) && Enabled(s, step)
    ensures Late(Next(s, step))
  {
    hide Inv, Late, EngineHandled, Scheduled;
    if step.EngineHandle? {
      EngineHandlesLate(s, step.callback);
    } else if step.Schedule? {
      ScheduleLate(s, step.d);
    } else {
      OtherStepsQuiet(s, step);
      QuietKeeps(s, Next(s, step));
    }
  }

  lemma {:induction false} LateRun(run: seq<State>, steps: seq<Step>, j: nat)
    requires IsRun(run, steps) && j < |run|
    ensures Late(run[j])
  {
    hide Inv, Enabled, Next;
    if j > 0 {
      LateRun(run, steps, j - 1);
      RunOk(run, steps, j - 1);
      LateKept(run[j - 1], steps[j - 1]);
    }
  }

  /** The table holds exactly the descriptors that were created and not destroyed. */
  lemma {:induction false} InTable(run: seq<State>, steps: seq<Step>, j: nat, d: Id)
    requires IsRun(run, steps) && j < |run|
    ensures d in run[j].res <==> d < run[j].next && Destroy(d) !in steps[..j]
    ensures Destroy(d) in steps[..j] ==> d < run[j].next
  {
    hide Inv, Enabled, Next;
    if j > 0 {
      InTable(run, steps, j - 1, d);
      RunOk(run, steps, j - 1);
      assert steps[..j] == steps[..j - 1] + [steps[j - 1]];
      TableStep(run[j - 1], steps[j - 1], d);
    }
  }

  lemma TableStep(s: State, step: Step, d: Id)
    requires Inv(s) && Enabled(s, step)
    ensures s.next <= Next(s, step).next
    ensures step == Destroy(d) ==> d in s.res && d !in Next(s, step).res
    ensures step != Destroy(d) ==> (d in Next(s, step).res <==> d in s.res || s.next <= d < Next(s, step).next)
    ensures d in s.res ==> d < s.next
  {
    if d in s.res { InTableIsOld(s, d); }
    match step
    case Create(uid) => TableGrows(s, uid, d);
    case Destroy(e) => TableShrinks(s, e, d);
    case _ => TableKept(s, step); hide Inv, Enabled, Next;
  }

  lemma TableGrows(s: State, uid: Uid, d: Id)
    ensures d in Created(s, uid).res <==> d in s.res || d == s.next
    ensures Created(s, uid).next == s.next + 1
  {
  }

  lemma TableShrinks(s: State, e: Id, d: Id)
    ensures d in Destroyed(s, e).res <==> d in s.res && d != e
    ensures Destroyed(s, e).next == s.next
  {
  }

  lemma TableKept(s: State, step: Step)
    requires Enabled(s, step) && !step.Create? && !step.Destroy?
    ensures Next(s, step).res.Keys == s.res.Keys && Next(s, step).next == s.next
  {
    hide LoaderHandled, EngineHandled, Dropped, Scheduled;
    match step
    case LoaderHandle(result) => LoaderKeepsTable(s, result); LoaderKeepsNext(s, result);
    case EngineHandle(callback) => EngineKeepsLoads(s, callback); EngineKeepsNext(s, callback);
    case DropRef(d) => DropKeepsLoads(s, d); DropKeepsNext(s, d);
    case Schedule(d) => ScheduleKeepsTable(s, d);
    case _ =>
  }

  lemma LoaderKeepsNext(s: State, result: LoaderResult)
    requires s.loaderBatch != []
    ensures LoaderHandled(s, result).next == s.next
  {
  }

  lemma EngineKeepsNext(s: State, callback: CallbackResult)
    requires s.engineBatch != []
    ensures EngineHandled(s, callback).next == s.next
  {
  }

  lemma DropKeepsNext(s: State, d: Id)
    ensures Dropped(s, d).next == s.next
  {
  }

  lemma ScheduleKeepsTable(s: State, d: Id)
    requires d in s.res && d in s.holders
    ensures Scheduled(s, d).res.Keys == s.res.Keys && Scheduled(s, d).next == s.next
  {
  }

  lemma InTableIsOld(s: State, d: Id)
    requires Inv(s) && d in s.res
    ensures d < s.next
  {
    hide Sides, Ledger, Edges, ChildrenExist, Pins, Mail, Flight;
  }

  ghost predicate InUse(s: State, d: Id) {
    d in s.res && s.res[d].status != Deleting
  }

  /** A client gives up the last reference. */
  ghost predicate LastDrop(s: State, step: Step, d: Id) {
    step == DropRef(d) && d in s.res && s.res[d].refCount == 1
  }

  /** A descriptor is in use from when it was created until a client gives up the last reference. */
  lemma {:induction false} UsedUntilLastDrop(run: seq<State>, steps: seq<Step>, j: nat, d: Id)
    requires IsRun(run, steps) && j < |run|
    ensures InUse(run[j], d) <==> d < run[j].next && forall i :: 0 <= i < j ==> !LastDrop(run[i], steps[i], d)
    ensures d >= run[j].next ==> forall i :: 0 <= i < j ==> !LastDrop(run[i], steps[i], d)
  {
    hide Inv, Enabled, Next, InUse, LastDrop;
    if j > 0 {
      UsedUntilLastDrop(run, steps, j - 1, d);
      RunOk(run, steps, j - 1);
      UseStep(run[j - 1], steps[j - 1], d);
      DropIsOfOld(run[j - 1], steps[j - 1], d);
    } else {
      NoneAtStart(d);
    }
  }

  lemma NoneAtStart(d: Id)
    ensures !InUse(START, d) && START.next == 0
  {
  }

  lemma DropIsOfOld(s: State, step: Step, d: Id)
    requires Inv(s)
    ensures LastDrop(s, step, d) ==> d < s.next
  {
    if d in s.res { InTableIsOld(s, d); }
    hide Inv;
  }

  lemma UseStep(s: State, step: Step, d: Id)
    requires Inv(s) && Enabled(s, step)
    ensures InUse(Next(s, step), d) <==> (InUse(s, d) && !LastDrop(s, step, d)) || s.next <= d < Next(s, step).next
    ensures s.next <= Next(s, step).next && (InUse(s, d) ==> d < s.next)
  {
    hide Inv, LastDrop, EngineHandled, LoaderHandled, Dropped;
    TableStep(s, step, d);
    match step
    case EngineHandle(callback) => UseHandled(s, callback, d); NoDrop(s, step, d);
    case LoaderHandle(result) => LoaderKeepsTable(s, result); NoDrop(s, step, d); LoaderKeepsNext(s, result);
    case DropRef(e) => UseDropped(s, e, d);
    case _ => UseOther(s, step, d); NoDrop(s, step, d);
  }

  lemma NoDrop(s: State, step: Step, d: Id)
    requires !step.DropRef?
    ensures !LastDrop(s, step, d)
  {
  }

  lemma UseHandled(s: State, callback: CallbackResult, d: Id)
    requires Inv(s) && s.engineBatch != []
    ensures InUse(EngineHandled(s, callback), d) <==> InUse(s, d)
    ensures EngineHandled(s, callback).next == s.next
  {
    EngineKeepsNext(s, callback);
    hide EngineHandled, GivesBack, Inv;
    if e :| GivesBack(s, callback, e) {
      UseGivenBack(s, callback, e, d);
    } else {
      OtherMessageTable(s, callback);
    }
  }

  lemma UseGivenBack(s: State, callback: CallbackResult, e: Id, d: Id)
    requires Inv(s) && GivesBack(s, callback, e)
    ensures InUse(EngineHandled(s, callback), d) <==> InUse(s, d)
  {
    hide Inv, EngineHandled, CanRelease, StatusAfter;
    HeadIsPinned(s);
    assert e in Named(s.engineBatch[0]);
    CanReleaseMeans(s, e);
    TableAfter(s, callback, e);
    NotDeletingAfter(s.res[e].status, callback);
    hide GivesBack, Named;
  }

  lemma CanReleaseMeans(s: State, d: Id)
    requires CanRelease(s, d)
    ensures d in s.res && d in s.holders && s.res[d].refCount > 0
  {
  }

  lemma OtherMessageTable(s: State, callback: CallbackResult)
    requires s.engineBatch != [] && forall d :: !GivesBack(s, callback, d)
    ensures EngineHandled(s, callback).res == s.res
  {
    var m := s.engineBatch[0];
    assert !m.FinishedOk? by {
      if m.FinishedOk? { assert GivesBack(s, callback, m.descr); }
    }
    assert m.WantCallback? ==> callback == Pending by {
      if m.WantCallback? { assert !GivesBack(s, callback, m.descr); }
    }
  }

  lemma UseDropped(s: State, e: Id, d: Id)
    requires Inv(s) && Enabled(s, DropRef(e))
    ensures InUse(Dropped(s, e), d) <==> InUse(s, d) && !LastDrop(s, DropRef(e), d)
    ensures Dropped(s, e).next == s.next
  {
    DropCounts(s, e);
    PinsAt(s, e);
    hide Inv, Enabled;
    CanReleaseMeans(s, e);
    DroppedTable(s, e);
    DropKeepsNext(s, e);
    hide Dropped, CanRelease;
  }

  lemma DroppedTable(s: State, e: Id)
    requires CanRelease(s, e)
    ensures var left := s.res[e].refCount - 1;
            Dropped(s, e).res
            == s.res[e := s.res[e].(refCount := left, status := if left == 0 then Deleting else s.res[e].status)]
  {
  }

  lemma UseOther(s: State, step: Step, d: Id)
    requires Enabled(s, step) && !step.DropRef? && !step.EngineHandle? && !step.LoaderHandle?
    ensures InUse(Next(s, step), d) <==> InUse(s, d) || s.next <= d < Next(s, step).next
  {
    hide Without, LoaderHandled, Answered, EngineHandled, Dropped;
  }

  /** When the loader handles the message, the descriptor is there exactly when it was not destroyed before, and
      in use exactly when no client gave up the last reference before: the message does not keep it, and
      neither does the loader. */
  lemma FinishedIsThere(run: seq<State>, steps: seq<Step>, j: nat, d: Id)
    requires IsRun(run, steps) && j < |run| && Finishing(run[j], d)
    ensures d in run[j].res <==> Destroy(d) !in steps[..j]
    ensures InUse(run[j], d) <==> forall i :: 0 <= i < j ==> !LastDrop(run[i], steps[i], d)
    ensures d in run[j].holders ==> Loader !in run[j].holders[d]
  {
    hide Inv, Finishing, InUse, LastDrop;
    RunOk(run, steps, j);
    LateRun(run, steps, j);
    InTable(run, steps, j, d);
    UsedUntilLastDrop(run, steps, j, d);
    hide Enabled, Next;
    AskedIsOld(run[j], d);
  }

  lemma AskedIsOld(s: State, d: Id)
    requires Inv(s) && d in s.loads
    ensures d < s.next
  {
    hide Sides, Ledger, Edges, ChildrenExist, Pins, Mail, Flight;
  }
}
