/** What handling a batch of messages comes to, message by message: which messages go out, in which order, and
    what becomes of the descriptors they name. */
module LoaderBatches {
  import opened Arith
  import opened LoaderProtocol
  import opened LoaderSteps
  import opened LoaderShape
  import opened LoaderWays

  /** A whole batch handled, first message first. */
  ghost function EngineAll(s: State, callbacks: seq<CallbackResult>): State
    decreases |callbacks|
  {
    if s.engineBatch == [] || callbacks == [] then s else EngineAll(EngineHandled(s, callbacks[0]), callbacks[1..])
  }

  ghost function LoaderAll(s: State, results: seq<LoaderResult>): State
    decreases |results|
  {
    if s.loaderBatch == [] || results == [] then s else LoaderAll(LoaderHandled(s, results[0]), results[1..])
  }

  // ---------------------------------------------------------------- the loader's side

  /** One answer for every request to load or to go on, in order; nothing for the others. */
  function Answers(batch: seq<Msg>, results: seq<LoaderResult>): seq<Msg>
    requires |batch| <= |results|
    decreases |batch|
  {
    if batch == [] then []
    else
      (if batch[0].Load? || batch[0].LoadContinued? then
         [match results[0]
          case Success => FinishedOk(batch[0].descr)
          case Callback => WantCallback(batch[0].descr)
          case Failed => FinishedKo]
       else [])
      + Answers(batch[1..], results[1..])
  }

  /** The loader takes messages off and answers; it changes no descriptor. */
  lemma {:induction false} LoaderAnswers(s: State, results: seq<LoaderResult>)
    requires |s.loaderBatch| <= |results|
    ensures var t := LoaderAll(s, results);
            && t.toEngine == s.toEngine + Answers(s.loaderBatch, results)
            && t.res == s.res && t.holders == s.holders && t.toLoader == s.toLoader && t.loaderBatch == []
            && (t.quit <==> s.quit || Die in s.loaderBatch)
    decreases |s.loaderBatch|
  {
    if s.loaderBatch == [] {
      assert s.toEngine + [] == s.toEngine;
    } else {
      LoaderOne(s, results[0]);
      LoaderAnswers(LoaderHandled(s, results[0]), results[1..]);
      hide LoaderHandled;
    }
  }

  lemma LoaderOne(s: State, result: LoaderResult)
    requires s.loaderBatch != []
    ensures var t := LoaderHandled(s, result);
            && t.loaderBatch == s.loaderBatch[1..] && t.res == s.res && t.holders == s.holders
            && t.toLoader == s.toLoader && (t.quit <==> s.quit || s.loaderBatch[0] == Die)
            && t.toEngine == s.toEngine + Answers([s.loaderBatch[0]], [result])
  {
    assert [s.loaderBatch[0]][1..] == [];
    assert s.toEngine + [] == s.toEngine;
  }

  // ---------------------------------------------------------------- the engine's side

  /** A wish for a callback gets a reply: go on, or the file is not needed any more. */
  function Reply(m: Msg, callback: CallbackResult): seq<Msg> {
    if !m.WantCallback? then []
    else if callback == Pending then [LoadContinued(m.descr)]
    else [LoadFinished(m.descr)]
  }

  function Replies(batch: seq<Msg>, callbacks: seq<CallbackResult>): seq<Msg>
    requires |batch| <= |callbacks|
    decreases |batch|
  {
    if batch == [] then [] else Reply(batch[0], callbacks[0]) + Replies(batch[1..], callbacks[1..])
  }

  /** A message after which the engine calls the function of the resource's type. */
  predicate Calls(m: Msg) {
    m.FinishedOk? || m.WantCallback?
  }

  /** What the call does to the descriptor: its status is as the function answers, and the loader's reference
      is given back unless the loader is to go on. */
  ghost predicate CallDone(r: Res, r': Res, m: Msg, callback: CallbackResult) {
    && (callback == Done ==> r'.status == Ready)
    && (callback == DoneBadly ==> r'.status == Error)
    && (callback == NoFunction || callback == Pending ==> r'.status == r.status)
    && r'.refCount == r.refCount - (if m.WantCallback? && callback == Pending then 0 else 1)
    && r'.uid == r.uid && r'.children == r.children
  }

  /** Each named descriptor has had its call, and no other has changed. */
  ghost predicate Handled(res: Table, res': Table, batch: seq<Msg>, callbacks: seq<CallbackResult>)
    requires |batch| <= |callbacks|
  {
    && res'.Keys == res.Keys
    && (forall i :: 0 <= i < |batch| && Calls(batch[i]) ==>
                      batch[i].descr in res && batch[i].descr in res'
                      && CallDone(res[batch[i].descr], res'[batch[i].descr], batch[i], callbacks[i]))
    && forall d :: d in res && (forall i :: 0 <= i < |batch| && Calls(batch[i]) ==> batch[i].descr != d) ==>
                     res'[d] == res[d]
  }

  lemma {:induction false} EngineReplies(s: State, callbacks: seq<CallbackResult>)
    requires Inv(s) && |s.engineBatch| <= |callbacks|
    ensures var t := EngineAll(s, callbacks);
            && t.toLoader == s.toLoader + Replies(s.engineBatch, callbacks)
            && t.toEngine == s.toEngine && Handled(s.res, t.res, s.engineBatch, callbacks)
    decreases |s.engineBatch|
  {
    hide Inv, EngineHandled, Handled;
    if s.engineBatch == [] {
      assert s.toLoader + [] == s.toLoader;
      NoneHandled(s.res, callbacks);
    } else {
      var u := EngineHandled(s, callbacks[0]);
      EngineHandleOk(s, callbacks[0]);
      EngineOne(s, callbacks[0]);
      EngineReplies(u, callbacks[1..]);
      NamedOnce(s);
      HandledMore(s.res, u.res, EngineAll(u, callbacks[1..]).res, s.engineBatch, callbacks);
      OneReply(s.engineBatch, callbacks, s.toLoader);
    }
  }

  lemma NoneHandled(res: Table, callbacks: seq<CallbackResult>)
    ensures Handled(res, res, [], callbacks)
  {
  }

  lemma OneReply(batch: seq<Msg>, callbacks: seq<CallbackResult>, before: seq<Msg>)
    requires batch != [] && |batch| <= |callbacks|
    ensures before + Reply(batch[0], callbacks[0]) + Replies(batch[1..], callbacks[1..])
            == before + Replies(batch, callbacks)
  {
    hide Reply;
  }

  /** No later message of the batch names the descriptor of the first. */
  lemma NamedOnce(s: State)
    requires Inv(s) && s.engineBatch != []
    ensures forall i :: 0 < i < |s.engineBatch| && Calls(s.engineBatch[i]) && Calls(s.engineBatch[0]) ==>
              s.engineBatch[i].descr != s.engineBatch[0].descr
  {
    var b := s.engineBatch;
    hide Inv, NamedIn;
    forall i | 0 < i < |b| && Calls(b[i]) && Calls(b[0])
      ensures b[i].descr != b[0].descr
    {
      if b[i].descr == b[0].descr {
        TwiceNamed(b, i, b[0].descr);
        BatchOnce(s, b[0].descr);
      }
    }
  }

  lemma BatchOnce(s: State, d: Id)
    requires Inv(s)
    ensures NamedIn(s.engineBatch)[d] <= 1
  {
    hide Sides, Ledger, Edges, ChildrenExist, Pins, LoadsOnce, NamedIn;
    assert Flight(s)[d] <= 1;
  }

  lemma TwiceNamed(b: seq<Msg>, i: nat, d: Id)
    requires 0 < i < |b| && d in Named(b[0]) && d in Named(b[i])
    ensures NamedIn(b)[d] >= 2
  {
    NamedAt(b[1..], i - 1, d);
  }

  lemma {:induction false} NamedAt(b: seq<Msg>, i: nat, d: Id)
    requires i < |b| && d in Named(b[i])
    ensures NamedIn(b)[d] >= 1
    decreases i
  {
    if i > 0 {
      NamedAt(b[1..], i - 1, d);
    }
  }

  lemma EngineOne(s: State, callback: CallbackResult)
    requires Inv(s) && s.engineBatch != []
    ensures var t := EngineHandled(s, callback);
            && t.engineBatch == s.engineBatch[1..] && t.toEngine == s.toEngine
            && t.toLoader == s.toLoader + Reply(s.engineBatch[0], callback)
            && Handled(s.res, t.res, [s.engineBatch[0]], [callback])
  {
    HeadIsPinned(s);
    var m := s.engineBatch[0];
    if Calls(m) {
      assert m.descr in Named(m);
      hide Inv, EngineHandled, Named, Handled, CanRelease;
      if m.WantCallback? && callback == Pending {
        PendingOne(s);
      } else {
        GivenOne(s, callback);
      }
    } else {
      hide Inv, EngineHandled, Named, Handled;
      OtherOne(s, callback);
    }
  }

  lemma OtherOne(s: State, callback: CallbackResult)
    requires s.engineBatch != [] && !Calls(s.engineBatch[0])
    ensures var t := EngineHandled(s, callback);
            && t.engineBatch == s.engineBatch[1..] && t.toEngine == s.toEngine
            && t.toLoader == s.toLoader + Reply(s.engineBatch[0], callback)
            && Handled(s.res, t.res, [s.engineBatch[0]], [callback])
  {
    assert s.toLoader + [] == s.toLoader;
  }

  lemma PendingOne(s: State)
    requires s.engineBatch != [] && s.engineBatch[0].WantCallback? && CanRelease(s, s.engineBatch[0].descr)
    ensures var t := EngineHandled(s, Pending);
            && t.engineBatch == s.engineBatch[1..] && t.toEngine == s.toEngine
            && t.toLoader == s.toLoader + Reply(s.engineBatch[0], Pending)
            && Handled(s.res, t.res, [s.engineBatch[0]], [Pending])
  {
  }

  lemma GivenOne(s: State, callback: CallbackResult)
    requires s.engineBatch != [] && Calls(s.engineBatch[0]) && CanRelease(s, s.engineBatch[0].descr)
    requires s.engineBatch[0].WantCallback? ==> callback != Pending
    ensures var t := EngineHandled(s, callback);
            && t.engineBatch == s.engineBatch[1..] && t.toEngine == s.toEngine
            && t.toLoader == s.toLoader + Reply(s.engineBatch[0], callback)
            && Handled(s.res, t.res, [s.engineBatch[0]], [callback])
  {
    var m, rest := s.engineBatch[0], s.(engineBatch := s.engineBatch[1..]);
    assert s.toLoader + [] == s.toLoader;
    CallbackAndRelease(rest, m.descr, callback);
    hide LetGo, AfterCallback;
    OneCall(s.res, m, callback);
    hide Handled, CallDone;
  }

  lemma OneCall(res: Table, m: Msg, callback: CallbackResult)
    requires Calls(m) && m.descr in res && res[m.descr].refCount > 0
    requires m.WantCallback? ==> callback != Pending
    ensures Handled(res, res[m.descr := LessOne(res[m.descr], callback)], [m], [callback])
  {
    assert [m][0] == m && [callback][0] == callback;
  }

  lemma HandledMore(res: Table, mid: Table, res': Table, batch: seq<Msg>, callbacks: seq<CallbackResult>)
    requires batch != [] && |batch| <= |callbacks|
    requires Handled(res, mid, [batch[0]], [callbacks[0]]) && Handled(mid, res', batch[1..], callbacks[1..])
    requires forall i :: 0 < i < |batch| && Calls(batch[i]) && Calls(batch[0]) ==> batch[i].descr != batch[0].descr
    ensures Handled(res, res', batch, callbacks)
  {
    hide CallDone;
    forall i | 0 <= i < |batch| && Calls(batch[i])
      ensures batch[i].descr in res && batch[i].descr in res'
      ensures CallDone(res[batch[i].descr], res'[batch[i].descr], batch[i], callbacks[i])
    {
      var d := batch[i].descr;
      if i == 0 {
        assert [batch[0]][0] == batch[0];
        assert forall k :: 0 <= k < |batch[1..]| ==> batch[1..][k] == batch[k + 1];
      } else {
        assert batch[1..][i - 1] == batch[i] && callbacks[1..][i - 1] == callbacks[i];
      }
    }
    forall d | d in res && (forall i :: 0 <= i < |batch| && Calls(batch[i]) ==> batch[i].descr != d)
      ensures res'[d] == res[d]
    {
      assert forall k :: 0 <= k < |batch[1..]| ==> batch[1..][k] == batch[k + 1];
    }
  }
}
