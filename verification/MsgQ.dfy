/** Thread message queues: a first-in first-out list for every queue handle, with a copied payload
    in a message when the sender gave one. */
module MsgQs {
  import opened Arith
  import opened Options
  import opened Bytes
  import opened MsgAccounts
  import F = Fifos

  class MsgSystem {
    var msgHandleList: map<Handle, F.Fifo<Msg>>
    /** The allocator: live payloads, and how many were allocated so far. */
    var live: Payloads
    var next: nat
    /** Payloads popped and not yet deleted, and payloads freed, oldest first. */
    ghost var held: set<nat>
    ghost var freed: seq<nat>

    ghost function Footprint(): set<object>
      reads this, msgHandleList.Values
    {
      set h, r | h in msgHandleList && r in msgHandleList[h].Repr :: r
    }

    /** Every queue is a proper list and no two share anything. */
    ghost predicate Wired()
      reads this, msgHandleList.Values, Footprint()
    {
      && (forall h :: h in msgHandleList ==> msgHandleList[h].Valid())
      && (forall h :: h in msgHandleList ==>
                        msgHandleList[h] in msgHandleList[h].Repr && this !in msgHandleList[h].Repr)
      && forall h, g :: h in msgHandleList && g in msgHandleList && h != g ==>
                          msgHandleList[h].Repr !! msgHandleList[g].Repr
    }

    ghost function Queues(): Queues
      reads this, msgHandleList.Values
    {
      map h | h in msgHandleList :: msgHandleList[h].Contents()
    }

    ghost function State(): MsgAccounts.State
      reads this, msgHandleList.Values
    {
      MsgAccounts.State(Queues(), held, live, freed, next)
    }

    ghost predicate Valid()
      reads this, msgHandleList.Values, Footprint()
    {
      Wired() && Accounts(State())
    }

    constructor ()
      ensures Valid() && State() == MsgAccounts.State(map[], {}, map[], [], 0)
    {
      msgHandleList, live, next := map[], map[], 0;
      held, freed := {}, [];
    }

    /** `reserved` is the answer of the handle list, which has none left when it is full; then there is no
        queue and nothing changes. */
    method CreateMsgQ(reserved: Option<Handle>) returns (ok: bool)
      requires Valid() && (reserved.Some? ==> reserved.value !in msgHandleList)
      modifies this
      ensures Valid() && (ok <==> reserved.Some?)
      ensures State() == if ok then Created(old(State()), reserved.value) else old(State())
      ensures ok ==> State().queues == old(State()).queues[reserved.value := []]
    {
      hide Accounts, Wired;
      if reserved == None {
        return false;
      }
      CreatedOk(State(), reserved.value);
      PrivCreate(reserved.value);
      ok := true;
    }

    method PrivCreate(h: Handle)
      requires Wired() && h !in msgHandleList
      modifies this
      ensures Wired() && State() == Created(old(State()), h)
    {
      hide F.Fifo.Valid;
      var s := new F.Fifo<Msg>();
      msgHandleList := msgHandleList[h := s];
      assert Queues() == old(Queues())[h := []];
    }

    /** The queue `h` gets one more message at one end. */
    method PrivPush(h: Handle, msg: Msg, onTop: bool)
      requires Wired() && h in msgHandleList
      modifies msgHandleList[h].Repr
      ensures Wired() && h in old(State()).queues
      ensures State() == Queued(old(State()), h, AtEnd(old(State()).queues[h], msg, onTop))
    {
      hide F.Fifo.Valid, F.Fifo.Contents;
      var s := msgHandleList[h];
      if onTop {
        s.PushOnTop(msg);
      } else {
        s.Push(msg);
      }
      assert Queues() == old(Queues())[h := AtEnd(old(Queues())[h], msg, onTop)];
    }

    method PrivPop(h: Handle) returns (out: Option<Msg>)
      requires Wired() && h in msgHandleList
      modifies this, msgHandleList[h].Repr
      ensures Wired() && h in old(State()).queues
      ensures msgHandleList == old(msgHandleList) && msgHandleList[h].Repr == old(msgHandleList[h].Repr)
      ensures old(State()).queues[h] == [] ==> out == None && State() == old(State())
      ensures old(State()).queues[h] != [] ==>
                out == Some(old(State()).queues[h][0]) && State() == Popped(old(State()), h)
    {
      hide Wired, IdsOf;
      out := PrivPopFifo(h);
      if out.Some? {
        PrivHold(IdsOf(out.value));
      }
    }

    method PrivPopFifo(h: Handle) returns (out: Option<Msg>)
      requires Wired() && h in msgHandleList
      modifies msgHandleList[h].Repr
      ensures Wired() && h in old(State()).queues
      ensures msgHandleList == old(msgHandleList) && msgHandleList[h].Repr == old(msgHandleList[h].Repr)
      ensures var q := old(State()).queues[h];
              if q == [] then out == None && State() == old(State())
              else out == Some(q[0]) && State() == old(State()).(queues := old(State()).queues[h := q[1..]])
    {
      hide F.Fifo.Valid, F.Fifo.Contents;
      var s := msgHandleList[h];
      out := s.Pop();
      assert Queues() == old(Queues())[h := s.Contents()];
    }

    /** The reader has the message now. */
    ghost method PrivHold(ids: set<nat>)
      requires Wired()
      modifies this`held
      ensures Wired() && State() == old(State()).(held := old(held) + ids)
    {
      hide F.Fifo.Valid, F.Fifo.Contents;
      held := held + ids;
    }

    method PrivDrop(h: Handle)
      requires Wired() && h in msgHandleList
      modifies this
      ensures Wired() && State() == Dropped(old(State()), h)
    {
      hide F.Fifo.Valid, F.Fifo.Contents;
      msgHandleList := msgHandleList - {h};
      assert Queues() == old(Queues()) - {h};
    }

    /** Allocates a copy; the message refers to it by number. */
    method PrivPrepare(what: nat, paramU64: nat, data: seq<byte>) returns (msg: Msg)
      requires Wired()
      modifies this
      ensures Wired() && msg == Copying(what, paramU64, data, old(next))
      ensures State() == if data == [] then old(State()) else Allocated(old(State()), data)
      ensures msgHandleList == old(msgHandleList)
    {
      hide F.Fifo.Valid, F.Fifo.Contents;
      if data == [] {
        return Msg(what, 0, paramU64, Null);
      }
      msg := Msg(what, |data|, paramU64, Payload(next));
      live, next := live[next := data], next + 1;
    }

    /** Copies the bytes, if there are any, and queues the message last. A handle that is not a queue's
        does nothing. */
    method PushMsg(h: Handle, what: nat, paramU64: nat, src: Option<seq<byte>>)
      requires Valid() && (src.Some? ==> |src.value| < U32_LIMIT)
      modifies this, Footprint()
      ensures Valid() && State() == Pushed(old(State()), h, what, paramU64, BytesOf(src), false)
      ensures OnlyQueue(old(State()), State(), h) && (h !in old(State()).queues ==> State() == old(State()))
      ensures h in old(State()).queues ==>
                exists x :: Carries(State(), x, what, paramU64, BytesOf(src))
                            && State().queues[h] == old(State()).queues[h] + [x]
    {
      hide Accounts, Wired, Pushed, OnlyQueue, Carries;
      PushedWhere(State(), h, what, paramU64, BytesOf(src), false);
      PrivCopyAndPush(h, what, paramU64, BytesOf(src), false);
    }

    method PushMsgOnTop(h: Handle, what: nat, paramU64: nat, src: Option<seq<byte>>)
      requires Valid() && (src.Some? ==> |src.value| < U32_LIMIT)
      modifies this, Footprint()
      ensures Valid() && State() == Pushed(old(State()), h, what, paramU64, BytesOf(src), true)
      ensures OnlyQueue(old(State()), State(), h) && (h !in old(State()).queues ==> State() == old(State()))
      ensures h in old(State()).queues ==>
                exists x :: Carries(State(), x, what, paramU64, BytesOf(src))
                            && State().queues[h] == [x] + old(State()).queues[h]
    {
      hide Accounts, Wired, Pushed, OnlyQueue, Carries;
      PushedWhere(State(), h, what, paramU64, BytesOf(src), true);
      PrivCopyAndPush(h, what, paramU64, BytesOf(src), true);
    }

    method PrivCopyAndPush(h: Handle, what: nat, paramU64: nat, data: seq<byte>, onTop: bool)
      requires Valid()
      modifies this, Footprint()
      ensures Valid() && State() == Pushed(old(State()), h, what, paramU64, data, onTop)
    {
      hide Accounts, Wired, Copying, AtEnd;
      PushedOk(State(), h, what, paramU64, data, onTop);
      if h in msgHandleList {
        var msg := PrivPrepare(what, paramU64, data);
        PrivPush(h, msg, onTop);
      }
    }

    /** Passes the sender's pointer on; nothing is copied. Zero is the null pointer. */
    method PushMsgUserData(h: Handle, what: nat, paramU64: nat, userData: nat)
      requires Valid()
      modifies this, Footprint()
      ensures Valid() && State() == PushedUserData(old(State()), h, what, paramU64, userData)
      ensures OnlyQueue(old(State()), State(), h) && live == old(live)
      ensures h in old(State()).queues ==>
                State().queues[h]
                == old(State()).queues[h] + [Msg(what, 0, paramU64, if userData == 0 then Null else UserData(userData))]
    {
      hide Accounts, Wired;
      PushedUserDataOk(State(), h, what, paramU64, userData);
      if h in msgHandleList {
        PrivPush(h, Msg(what, 0, paramU64, if userData == 0 then Null else UserData(userData)), false);
      }
    }

    /** Copies both buffers one after the other. Without a first one the second is not sent at all. */
    method PushMsg2Buffer(h: Handle, what: nat, paramU64: nat, src1: Option<seq<byte>>, src2: Option<seq<byte>>)
      requires Valid()
      requires src1.Some? && src2.Some? ==> |src1.value| + |src2.value| < U32_LIMIT
      modifies this, Footprint()
      ensures Valid() && State() == Pushed(old(State()), h, what, paramU64, BothBuffers(src1, src2), false)
      ensures OnlyQueue(old(State()), State(), h)
      ensures h in old(State()).queues ==>
                exists x :: State().queues[h] == old(State()).queues[h] + [x]
                            && Carries(State(), x, what, paramU64,
                                       if BytesOf(src1) == [] then [] else BytesOf(src1) + BytesOf(src2))
    {
      hide Accounts, Wired, Pushed, OnlyQueue, Carries;
      PushedWhere(State(), h, what, paramU64, BothBuffers(src1, src2), false);
      assert BytesOf(src1) + [] == BytesOf(src1);
      var data: seq<byte> := [];
      if src1.Some? && |src1.value| > 0 {
        data := src1.value;
        if src2.Some? {
          data := data + src2.value;
        }
      }
      PrivCopyAndPush(h, what, paramU64, data, false);
    }

    /** The first message, which the reader has to delete. */
    method PopMsg(h: Handle) returns (out: Option<Msg>)
      requires Valid()
      modifies this, Footprint()
      ensures Valid() && msgHandleList == old(msgHandleList)
      ensures h in msgHandleList ==> msgHandleList[h].Repr == old(msgHandleList[h].Repr)
      ensures h !in old(State()).queues || old(State()).queues[h] == [] ==> out == None && State() == old(State())
      ensures h in old(State()).queues && old(State()).queues[h] != [] ==>
                out == Some(old(State()).queues[h][0]) && State() == Popped(old(State()), h)
      ensures live == old(live) && freed == old(freed) && State().queues.Keys == old(State()).queues.Keys
      ensures forall g :: g in old(State()).queues ==>
                State().queues[g]
                == if g == h && out.Some? then old(State()).queues[g][1..] else old(State()).queues[g]
    {
      hide Accounts, Wired;
      if h !in msgHandleList {
        return None;
      }
      if State().queues[h] != [] { PoppedOk(State(), h); }
      out := PrivPop(h);
    }

    /** The same messages, and the same state after, as that many single pops. */
    method PopMultipleMsg(h: Handle, numMaxMessagesToPop: nat) returns (out: seq<Msg>)
      requires Valid()
      modifies this, Footprint()
      ensures Valid()
      ensures h !in old(State()).queues ==> out == [] && State() == old(State())
      ensures h in old(State()).queues ==>
                out == Pops(old(State()).queues[h], numMaxMessagesToPop).0
                && State() == PoppedTimes(old(State()), h, numMaxMessagesToPop)
      ensures h in old(State()).queues ==>
                var n := Min(numMaxMessagesToPop, |old(State()).queues[h]|);
                && out == old(State()).queues[h][..n]
                && State().queues == old(State()).queues[h := old(State()).queues[h][n..]]
    {
      hide Accounts, Wired, PoppedTimes, Pops;
      out := [];
      if h in msgHandleList {
        PopsArePrefix(State().queues[h], numMaxMessagesToPop);
        PoppedTimesOk(State(), h, numMaxMessagesToPop);
        out := PrivPopMany(h, numMaxMessagesToPop);
      }
    }

    method PrivPopMany(h: Handle, numMaxMessagesToPop: nat) returns (out: seq<Msg>)
      requires Wired() && h in msgHandleList
      modifies this, msgHandleList[h].Repr
      ensures Wired() && h in old(State()).queues
      ensures State() == PoppedTimes(old(State()), h, numMaxMessagesToPop)
      ensures out == old(State()).queues[h][..Min(numMaxMessagesToPop, |old(State()).queues[h]|)]
    {
      hide Wired, PoppedTimes, Popped, F.Fifo.Contents;
      ghost var s, q := State(), State().queues[h];
      out := [];
      NoPops(s, h);
      var left := numMaxMessagesToPop;
      while left > 0
        invariant |out| + left == numMaxMessagesToPop && |out| <= |q|
        invariant Wired() && msgHandleList == old(msgHandleList)
        invariant msgHandleList[h].Repr == old(msgHandleList[h].Repr)
        invariant State() == PoppedTimes(s, h, |out|) && out == q[..|out|]
      {
        if |out| < |q| { OnePopMore(s, h, |out|); } else { NoMorePops(s, h, |out|); }
        var m := PrivPop(h);
        if m == None {
          NoMorePops(s, h, numMaxMessagesToPop);
          break;
        }
        out := out + [m.value];
        left := left - 1;
      }
    }

    /** Frees a copied payload; anything else is left alone. */
    method DeleteMsg(msg: Msg)
      requires Valid() && WellMade(msg, live) && IdsOf(msg) <= held
      modifies this
      ensures Valid() && State() == Deleted(old(State()), msg) && msgHandleList == old(msgHandleList)
      ensures State().queues == old(State()).queues
      ensures msg.buffer.Payload? ==> live == old(live) - {msg.buffer.id} && freed == old(freed) + [msg.buffer.id]
      ensures !msg.buffer.Payload? ==> live == old(live) && freed == old(freed)
    {
      hide Accounts, Wired;
      DeletedOk(State(), msg);
      if msg.bufferSize > 0 && msg.buffer != Null {
        PrivFree(msg.buffer.id);
      }
    }

    method PrivFree(id: nat)
      requires Wired() && id in live
      modifies this
      ensures Wired() && msgHandleList == old(msgHandleList)
      ensures State() == old(State()).(held := old(held) - {id}, live := old(live) - {id}, freed := old(freed) + [id])
    {
      hide F.Fifo.Valid, F.Fifo.Contents;
      live := live - {id};
      held, freed := held - {id}, freed + [id];
    }

    /** Pops and deletes everything, then gives the handle back. */
    method DeleteMsgQ(h: Handle)
      requires Valid()
      modifies this, Footprint()
      ensures Valid()
      ensures h !in old(State()).queues ==> State() == old(State())
      ensures h in old(State()).queues ==> State() == Dropped(Drained(old(State()), h), h)
      ensures State().queues == old(State()).queues - {h} && held == old(held)
      ensures h in old(State()).queues ==>
                live == old(live) - Ids(old(State()).queues[h]) && freed == old(freed) + IdList(old(State()).queues[h])
    {
      hide Accounts, Wired, Drained;
      if h in msgHandleList { DrainedOk(State(), h); }
      if h !in msgHandleList {
        return;
      }
      ghost var s := State();
      while true
        invariant Valid() && msgHandleList == old(msgHandleList) && h in msgHandleList
        invariant msgHandleList[h].Repr == old(msgHandleList[h].Repr)
        invariant Drained(State(), h) == Drained(s, h)
        decreases |State().queues[h]|
      {
        DrainedStep(State(), h);
        if State().queues[h] != [] { PoppedOk(State(), h); }
        var m := PrivPop(h);
        if m == None {
          break;
        }
        DeleteMsg(m.value);
      }
      DroppedOk(State(), h);
      PrivDrop(h);
    }
  }

  function BothBuffers(src1: Option<seq<byte>>, src2: Option<seq<byte>>): seq<byte> {
    if src1 == None || src1.value == [] then []
    else if src2.None? then src1.value
    else src1.value + src2.value
  }

  function BytesOf(src: Option<seq<byte>>): seq<byte> {
    if src.None? then [] else src.value
  }

  /** Both buffers are sent exactly when the first one has bytes or the second one has none. */
  lemma BothAreSent(src1: Option<seq<byte>>, src2: Option<seq<byte>>)
    ensures BothBuffers(src1, src2) == BytesOf(src1) + BytesOf(src2) <==> BytesOf(src1) != [] || BytesOf(src2) == []
  {
    assert BytesOf(src1) + [] == BytesOf(src1) && [] + BytesOf(src2) == BytesOf(src2);
  }
}
