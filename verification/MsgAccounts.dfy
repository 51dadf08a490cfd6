/** Who owns the payload of a message: a queue, the reader that popped it, or nobody any more. */
module MsgAccounts {
  import opened Arith
  import opened Bytes

  type Handle = nat
  type Payloads = map<nat, seq<byte>>
  type Queues = map<Handle, seq<Msg>>

  /** What a message points to: nothing, memory of the message allocator, or memory of the sender.
      Allocations are numbered and no number is used twice. */
  datatype Pointer = Null | Payload(id: nat) | UserData(address: nat)

  datatype Msg = Msg(what: nat, bufferSize: nat, paramU64: nat, buffer: Pointer)

  /** The test `deleteMsg` makes before it frees the buffer. */
  predicate FreesBuffer(m: Msg) {
    m.bufferSize > 0 && m.buffer != Null
  }

  /** What every push makes: the test above is true exactly of messages with a copied payload, and
      the size is the size of the copy. */
  ghost predicate WellMade(m: Msg, live: Payloads) {
    && (FreesBuffer(m) <==> m.buffer.Payload?)
    && (m.buffer.Payload? ==> m.buffer.id in live && |live[m.buffer.id]| == m.bufferSize)
  }

  ghost function IdsOf(m: Msg): set<nat> {
    if m.buffer.Payload? then {m.buffer.id} else {}
  }

  ghost function Ids(s: seq<Msg>): set<nat> {
    set i, id | 0 <= i < |s| && id in IdsOf(s[i]) :: id
  }

  /** No payload is named twice in a queue. */
  ghost predicate Once(s: seq<Msg>) {
    forall i, j :: 0 <= i < j < |s| ==> IdsOf(s[i]) !! IdsOf(s[j])
  }

  ghost predicate QueueOk(s: seq<Msg>, live: Payloads) {
    Once(s) && forall m :: m in s ==> WellMade(m, live)
  }

  /** `held`: payloads of messages popped and not yet deleted. */
  datatype State = State(queues: Queues, held: set<nat>, live: Payloads, freed: seq<nat>, next: nat)

  ghost predicate InSomeQueue(q: Queues, id: nat) {
    exists h :: h in q && id in Ids(q[h])
  }

  ghost predicate QueuesOk(s: State) {
    && (forall h :: h in s.queues ==> QueueOk(s.queues[h], s.live))
    && (forall h, g :: h in s.queues && g in s.queues && h != g ==> Ids(s.queues[h]) !! Ids(s.queues[g]))
    && (forall h :: h in s.queues ==> Ids(s.queues[h]) !! s.held)
  }

  /** Every live payload has exactly one owner. */
  ghost predicate Owned(s: State) {
    && s.held <= s.live.Keys
    && forall id :: id in s.live ==> id in s.held || InSomeQueue(s.queues, id)
  }

  /** Every allocation made so far is live or has been freed once. */
  ghost predicate FreedOnce(s: State) {
    && (forall i, j :: 0 <= i < j < |s.freed| ==> s.freed[i] != s.freed[j])
    && (forall i :: 0 <= i < |s.freed| ==> s.freed[i] < s.next && s.freed[i] !in s.live)
    && (forall id :: id in s.live ==> id < s.next)
    && (forall id: nat :: id < s.next ==> id in s.live || id in s.freed)
  }

  ghost predicate Accounts(s: State) {
    QueuesOk(s) && Owned(s) && FreedOnce(s)
  }

  // ---------------------------------------------------------------- the steps

  ghost function Created(s: State, h: Handle): State {
    s.(queues := s.queues[h := []])
  }

  /** A copied payload gets the next number. */
  ghost function Allocated(s: State, data: seq<byte>): State {
    s.(live := s.live[s.next := data], next := s.next + 1)
  }

  ghost function Queued(s: State, h: Handle, msgs: seq<Msg>): State {
    s.(queues := s.queues[h := msgs])
  }

  /** The message a push makes of what it is given; without bytes there is nothing to copy. */
  function Copying(what: nat, paramU64: nat, data: seq<byte>, next: nat): Msg {
    if data == [] then Msg(what, 0, paramU64, Null) else Msg(what, |data|, paramU64, Payload(next))
  }

  function AtEnd(q: seq<Msg>, m: Msg, onTop: bool): seq<Msg> {
    if onTop then [m] + q else q + [m]
  }

  /** A push that copies `data`. */
  ghost function Pushed(s: State, h: Handle, what: nat, paramU64: nat, data: seq<byte>, onTop: bool): State {
    if h !in s.queues then s
    else
      var msgs := AtEnd(s.queues[h], Copying(what, paramU64, data, s.next), onTop);
      if data == [] then Queued(s, h, msgs) else Queued(Allocated(s, data), h, msgs)
  }

  /** A push of the sender's own pointer. */
  ghost function PushedUserData(s: State, h: Handle, what: nat, paramU64: nat, address: nat): State {
    if h !in s.queues then s
    else Queued(s, h, s.queues[h] + [Msg(what, 0, paramU64, if address == 0 then Null else UserData(address))])
  }

  ghost function Popped(s: State, h: Handle): State
    requires h in s.queues && s.queues[h] != []
  {
    s.(queues := s.queues[h := s.queues[h][1..]], held := s.held + IdsOf(s.queues[h][0]))
  }

  ghost function Deleted(s: State, m: Msg): State {
    if m.buffer.Payload?
    then s.(held := s.held - {m.buffer.id}, live := s.live - {m.buffer.id}, freed := s.freed + [m.buffer.id])
    else s
  }

  ghost function Dropped(s: State, h: Handle): State {
    s.(queues := s.queues - {h})
  }

  /** A whole queue popped and deleted, message by message. */
  ghost function Drained(s: State, h: Handle): State
    requires h in s.queues
    decreases |s.queues[h]|
  {
    if s.queues[h] == [] then s else Drained(Deleted(Popped(s, h), s.queues[h][0]), h)
  }

  // ---------------------------------------------------------------- ids of a queue

  lemma IdsPush(s: seq<Msg>, m: Msg)
    ensures Ids(s + [m]) == Ids(s) + IdsOf(m) && Ids([m] + s) == Ids(s) + IdsOf(m)
  {
    forall id | id in Ids(s) + IdsOf(m)
      ensures id in Ids(s + [m]) && id in Ids([m] + s)
    {
      if id in IdsOf(m) {
        assert (s + [m])[|s|] == m && ([m] + s)[0] == m;
      } else {
        var i :| 0 <= i < |s| && id in IdsOf(s[i]);
        assert (s + [m])[i] == s[i] && ([m] + s)[i + 1] == s[i];
      }
    }
    forall id | id in Ids([m] + s)
      ensures id in Ids(s) + IdsOf(m)
    {
      var i :| 0 <= i < |s| + 1 && id in IdsOf(([m] + s)[i]);
      if i > 0 { assert ([m] + s)[i] == s[i - 1]; }
    }
    forall id | id in Ids(s + [m])
      ensures id in Ids(s) + IdsOf(m)
    {
      var i :| 0 <= i < |s| + 1 && id in IdsOf((s + [m])[i]);
      if i < |s| { assert (s + [m])[i] == s[i]; }
    }
  }

  lemma OncePush(s: seq<Msg>, m: Msg)
    requires Once(s) && IdsOf(m) !! Ids(s)
    ensures Once(s + [m]) && Once([m] + s)
  {
    hide IdsOf;
    forall i, j | 0 <= i < j < |s| + 1
      ensures IdsOf((s + [m])[i]) !! IdsOf((s + [m])[j])
    {
      if j == |s| { InIds(s, i); }
    }
    forall i, j | 0 <= i < j < |s| + 1
      ensures IdsOf(([m] + s)[i]) !! IdsOf(([m] + s)[j])
    {
      InIds(s, j - 1);
      if i > 0 { assert ([m] + s)[i] == s[i - 1] && ([m] + s)[j] == s[j - 1]; }
    }
  }

  lemma InIds(s: seq<Msg>, i: nat)
    requires i < |s|
    ensures IdsOf(s[i]) <= Ids(s)
  {
  }

  lemma OncePop(s: seq<Msg>)
    requires Once(s) && s != []
    ensures Once(s[1..]) && Ids(s) == Ids(s[1..]) + IdsOf(s[0]) && IdsOf(s[0]) !! Ids(s[1..])
  {
    hide IdsOf;
    var t := s[1..];
    assert s == [s[0]] + t;
    IdsPush(t, s[0]);
    forall i, j | 0 <= i < j < |t|
      ensures IdsOf(t[i]) !! IdsOf(t[j])
    {
      assert t[i] == s[i + 1] && t[j] == s[j + 1];
    }
    forall id | id in Ids(t)
      ensures id !in IdsOf(s[0])
    {
      var i :| 0 <= i < |t| && id in IdsOf(t[i]);
      assert t[i] == s[i + 1];
    }
  }

  lemma WellMadeIds(s: seq<Msg>, live: Payloads)
    requires QueueOk(s, live)
    ensures Ids(s) <= live.Keys
  {
    forall id | id in Ids(s)
      ensures id in live
    {
      var i :| 0 <= i < |s| && id in IdsOf(s[i]);
      assert s[i] in s;
    }
  }

  // ---------------------------------------------------------------- every step keeps the accounts

  lemma CreatedOk(s: State, h: Handle)
    requires Accounts(s) && h !in s.queues
    ensures Accounts(Created(s, h))
  {
    hide WellMade, IdsOf;
    var t := Created(s, h);
    assert Ids([]) == {} && QueueOk([], s.live);
    assert Owned(t) by {
      forall id | id in t.live && id !in t.held
        ensures InSomeQueue(t.queues, id)
      {
        var g :| g in s.queues && id in Ids(s.queues[g]);
        assert id in Ids(t.queues[g]);
      }
    }
  }

  /** A new message at either end of one queue. */
  ghost predicate OneMore(before: seq<Msg>, m: Msg, after: seq<Msg>) {
    after == before + [m] || after == [m] + before
  }

  lemma OneMoreOk(before: seq<Msg>, m: Msg, after: seq<Msg>, live: Payloads)
    requires QueueOk(before, live) && OneMore(before, m, after)
    requires WellMade(m, live) && IdsOf(m) !! Ids(before)
    ensures QueueOk(after, live) && Ids(after) == Ids(before) + IdsOf(m)
  {
    hide IdsOf, WellMade;
    IdsPush(before, m);
    OncePush(before, m);
  }

  /** A message without a payload of its own. */
  lemma PlainPushOk(s: State, h: Handle, m: Msg, msgs: seq<Msg>)
    requires Accounts(s) && h in s.queues && OneMore(s.queues[h], m, msgs)
    requires WellMade(m, s.live) && !m.buffer.Payload?
    ensures Accounts(Queued(s, h, msgs))
  {
    hide WellMade, Once;
    var t := Queued(s, h, msgs);
    OneMoreOk(s.queues[h], m, msgs, s.live);
    assert Ids(msgs) == Ids(s.queues[h]);
    hide Ids;
    KeepOwners(s, t, h);
  }

  lemma KeepOwners(s: State, t: State, h: Handle)
    requires Owned(s) && t.held == s.held && h in s.queues && t.queues.Keys == s.queues.Keys
    requires forall g :: g in s.queues && g != h ==> t.queues[g] == s.queues[g]
    requires Ids(s.queues[h]) <= Ids(t.queues[h])
    requires s.live.Keys <= t.live.Keys <= s.live.Keys + Ids(t.queues[h])
    ensures Owned(t)
  {
    hide Ids;
    forall id | id in t.live && id !in t.held
      ensures InSomeQueue(t.queues, id)
    {
      if id !in Ids(t.queues[h]) {
        var g :| g in s.queues && id in Ids(s.queues[g]);
        assert id in Ids(t.queues[g]);
      }
    }
  }

  /** Another live payload does not disturb the messages made before. */
  lemma MoreLive(s: seq<Msg>, live: Payloads, id: nat, data: seq<byte>)
    requires QueueOk(s, live) && id !in live
    ensures QueueOk(s, live[id := data]) && id !in Ids(s)
  {
    hide Once;
    WellMadeIds(s, live);
  }

  /** A message with a fresh copy. */
  lemma CopyPushOk(s: State, h: Handle, m: Msg, data: seq<byte>, msgs: seq<Msg>)
    requires Accounts(s) && h in s.queues && OneMore(s.queues[h], m, msgs)
    requires m.buffer == Payload(s.next) && m.bufferSize == |data| > 0
    ensures Accounts(Queued(Allocated(s, data), h, msgs))
  {
    var a := Allocated(s, data);
    var t := Queued(a, h, msgs);
    assert WellMade(m, a.live);
    hide WellMade, Once;
    forall g | g in s.queues
      ensures QueueOk(s.queues[g], a.live) && s.next !in Ids(s.queues[g])
    {
      MoreLive(s.queues[g], s.live, s.next, data);
    }
    OneMoreOk(s.queues[h], m, msgs, a.live);
    assert IdsOf(m) == {s.next};
    hide Ids, IdsOf, QueueOk;
    CopyQueuesOk(s, h, data, msgs);
    hide QueuesOk;
    KeepOwners(s, t, h);
    CopyFreedOnce(s, h, data, msgs);
  }

  lemma CopyQueuesOk(s: State, h: Handle, data: seq<byte>, msgs: seq<Msg>)
    requires QueuesOk(s) && Owned(s) && FreedOnce(s) && h in s.queues && Ids(msgs) == Ids(s.queues[h]) + {s.next}
    requires forall g :: g in s.queues ==> QueueOk(s.queues[g], Allocated(s, data).live) && s.next !in Ids(s.queues[g])
    requires QueueOk(msgs, Allocated(s, data).live)
    ensures QueuesOk(Queued(Allocated(s, data), h, msgs))
  {
    hide Ids, QueueOk;
  }

  lemma CopyFreedOnce(s: State, h: Handle, data: seq<byte>, msgs: seq<Msg>)
    requires FreedOnce(s)
    ensures FreedOnce(Queued(Allocated(s, data), h, msgs))
  {
  }

  lemma PushedOk(s: State, h: Handle, what: nat, paramU64: nat, data: seq<byte>, onTop: bool)
    requires Accounts(s)
    ensures Accounts(Pushed(s, h, what, paramU64, data, onTop))
  {
    hide Accounts, Queued, Allocated;
    if h in s.queues {
      var m := Copying(what, paramU64, data, s.next);
      var msgs := AtEnd(s.queues[h], m, onTop);
      if data == [] {
        PlainPushOk(s, h, m, msgs);
      } else {
        CopyPushOk(s, h, m, data, msgs);
      }
    }
  }

  lemma PushedUserDataOk(s: State, h: Handle, what: nat, paramU64: nat, address: nat)
    requires Accounts(s)
    ensures Accounts(PushedUserData(s, h, what, paramU64, address))
  {
    hide Accounts, Queued;
    if h in s.queues {
      var m := Msg(what, 0, paramU64, if address == 0 then Null else UserData(address));
      PlainPushOk(s, h, m, s.queues[h] + [m]);
    }
  }

  lemma PoppedOk(s: State, h: Handle)
    requires Accounts(s) && h in s.queues && s.queues[h] != []
    ensures Accounts(Popped(s, h)) && WellMade(s.queues[h][0], s.live) && IdsOf(s.queues[h][0]) <= Popped(s, h).held
    ensures IdsOf(s.queues[h][0]) <= s.live.Keys
  {
    hide WellMade, IdsOf;
    var t := Popped(s, h);
    OncePop(s.queues[h]);
    assert s.queues[h][0] in s.queues[h];
    WellMadeIds(s.queues[h], s.live);
    hide Once, Ids;
    assert forall m :: m in t.queues[h] ==> m in s.queues[h];
    PoppedOwned(s, h);
    hide Owned, FreedOnce;
    assert QueuesOk(t);
    assert FreedOnce(t) by { PoppedFreed(s, h); }
  }

  lemma PoppedOwned(s: State, h: Handle)
    requires Owned(s) && h in s.queues && s.queues[h] != []
    requires Ids(s.queues[h]) == Ids(s.queues[h][1..]) + IdsOf(s.queues[h][0]) && Ids(s.queues[h]) <= s.live.Keys
    ensures Owned(Popped(s, h))
  {
    hide Ids, IdsOf;
    var t := Popped(s, h);
    forall id | id in t.live && id !in t.held
      ensures InSomeQueue(t.queues, id)
    {
      var g :| g in s.queues && id in Ids(s.queues[g]);
      assert id in Ids(t.queues[g]);
    }
  }

  lemma PoppedFreed(s: State, h: Handle)
    requires FreedOnce(s) && h in s.queues && s.queues[h] != []
    ensures FreedOnce(Popped(s, h))
  {
    hide IdsOf;
  }

  lemma LessLive(s: seq<Msg>, live: Payloads, id: nat)
    requires QueueOk(s, live) && id !in Ids(s)
    ensures QueueOk(s, live - {id})
  {
    hide Once;
    forall m | m in s
      ensures WellMade(m, live - {id})
    {
      var i :| 0 <= i < |s| && s[i] == m;
      InIds(s, i);
    }
  }

  lemma DeletedOk(s: State, m: Msg)
    requires Accounts(s) && IdsOf(m) <= s.held
    ensures Accounts(Deleted(s, m))
  {
    if m.buffer.Payload? {
      var id, t := m.buffer.id, Deleted(s, m);
      hide Ids, QueueOk;
      forall h | h in s.queues
        ensures QueueOk(s.queues[h], t.live)
      {
        LessLive(s.queues[h], s.live, id);
      }
      assert QueuesOk(t) && Owned(t);
      assert FreedOnce(t);
    }
  }

  lemma DroppedOk(s: State, h: Handle)
    requires Accounts(s) && h in s.queues && s.queues[h] == []
    ensures Accounts(Dropped(s, h))
  {
    hide WellMade, Once;
    var t := Dropped(s, h);
    assert Ids([]) == {};
    hide Ids, QueueOk;
    assert Owned(t) by {
      forall id | id in t.live && id !in t.held
        ensures InSomeQueue(t.queues, id)
      {
        var g :| g in s.queues && id in Ids(s.queues[g]);
        assert id in Ids(t.queues[g]);
      }
    }
  }

  // ---------------------------------------------------------------- what the reader will find

  /** The message says this and points to a copy of these bytes, or to nothing. */
  ghost predicate Carries(s: State, m: Msg, what: nat, paramU64: nat, data: seq<byte>) {
    && m.what == what && m.paramU64 == paramU64 && m.bufferSize == |data|
    && if data == [] then m.buffer == Null
       else m.buffer.Payload? && m.buffer.id in s.live && s.live[m.buffer.id] == data
  }

  /** No other queue changes, and no payload there was. */
  ghost predicate OnlyQueue(s: State, t: State, h: Handle) {
    && t.queues.Keys == s.queues.Keys && t.held == s.held && t.freed == s.freed
    && (forall g :: g in s.queues && g != h ==> t.queues[g] == s.queues[g])
    && forall id :: id in s.live ==> id in t.live && t.live[id] == s.live[id]
  }

  /** A push puts exactly what it was given at one end. */
  lemma PushedWhere(s: State, h: Handle, what: nat, paramU64: nat, data: seq<byte>, onTop: bool)
    requires Accounts(s)
    ensures var t := Pushed(s, h, what, paramU64, data, onTop);
            && OnlyQueue(s, t, h)
            && (h !in s.queues ==> t == s)
            && (h in s.queues ==>
                  exists x :: Carries(t, x, what, paramU64, data)
                              && t.queues[h] == if onTop then [x] + s.queues[h] else s.queues[h] + [x])
  {
    hide QueuesOk, Owned;
    if h in s.queues {
      assert Carries(Pushed(s, h, what, paramU64, data, onTop), Copying(what, paramU64, data, s.next),
                     what, paramU64, data);
    }
  }

  /** What a sender gives to a push. */
  datatype Send = Send(what: nat, paramU64: nat, data: seq<byte>)

  ghost function SentAll(s: State, h: Handle, sends: seq<Send>): State {
    if sends == [] then s
    else
      var n := |sends| - 1;
      Pushed(SentAll(s, h, sends[..n]), h, sends[n].what, sends[n].paramU64, sends[n].data, false)
  }

  ghost predicate CarriesAll(s: State, q: seq<Msg>, sends: seq<Send>) {
    |q| == |sends| && forall i :: 0 <= i < |sends| ==> Carries(s, q[i], sends[i].what, sends[i].paramU64, sends[i].data)
  }

  /** Sends to a queue end up behind what is in it, in their order. */
  lemma {:induction false} SentInOrder(s: State, h: Handle, sends: seq<Send>)
    requires Accounts(s) && h in s.queues
    ensures var t := SentAll(s, h, sends);
            && Accounts(t) && OnlyQueue(s, t, h) && h in t.queues && |t.queues[h]| == |s.queues[h]| + |sends|
            && t.queues[h][..|s.queues[h]|] == s.queues[h] && CarriesAll(t, t.queues[h][|s.queues[h]|..], sends)
    decreases |sends|
  {
    hide Accounts, Pushed, Carries;
    var k := |s.queues[h]|;
    if sends != [] {
      var n, last := |sends| - 1, sends[|sends| - 1];
      var u := SentAll(s, h, sends[..n]);
      SentInOrder(s, h, sends[..n]);
      PushedOk(u, h, last.what, last.paramU64, last.data, false);
      PushedWhere(u, h, last.what, last.paramU64, last.data, false);
      var t := Pushed(u, h, last.what, last.paramU64, last.data, false);
      var x :| Carries(t, x, last.what, last.paramU64, last.data) && t.queues[h] == u.queues[h] + [x];
      CarriesMore(u, t, u.queues[h][k..], x, sends, h);
      assert t.queues[h][k..] == u.queues[h][k..] + [x];
    }
  }

  lemma CarriesMore(u: State, t: State, q: seq<Msg>, x: Msg, sends: seq<Send>, h: Handle)
    requires sends != [] && CarriesAll(u, q, sends[..|sends| - 1]) && OnlyQueue(u, t, h)
    requires Carries(t, x, sends[|sends| - 1].what, sends[|sends| - 1].paramU64, sends[|sends| - 1].data)
    ensures CarriesAll(t, q + [x], sends)
  {
    var n := |sends| - 1;
    forall i | 0 <= i < n
      ensures Carries(t, q[i], sends[i].what, sends[i].paramU64, sends[i].data)
    {
      assert sends[..n][i] == sends[i];
    }
  }

  /** What is pushed into an empty queue is popped in the same order, and its payloads are there. */
  lemma FirstInFirstOut(s: State, h: Handle, sends: seq<Send>)
    requires Accounts(s) && h in s.queues && s.queues[h] == []
    ensures var t := SentAll(s, h, sends);
            h in t.queues && var (out, left) := Pops(t.queues[h], |sends|); CarriesAll(t, out, sends) && left == []
  {
    hide Accounts, SentAll, Carries, Pops;
    SentInOrder(s, h, sends);
    var q := SentAll(s, h, sends).queues[h];
    PopsArePrefix(q, |sends|);
    assert q[0..] == q && q[..|q|] == q;
  }

  // ---------------------------------------------------------------- whole runs

  /** The payload ids of a queue, in order. */
  ghost function IdList(s: seq<Msg>): seq<nat> {
    if s == [] then [] else (if s[0].buffer.Payload? then [s[0].buffer.id] else []) + IdList(s[1..])
  }

  /** Draining a queue frees the payloads of exactly its messages, each once and in order, and leaves
      everything else alone. */
  lemma {:induction false} DrainedOk(s: State, h: Handle)
    requires Accounts(s) && h in s.queues
    ensures var t := Drained(s, h);
            Accounts(t) && t.queues == s.queues[h := []] && t.held == s.held && t.next == s.next
            && t.freed == s.freed + IdList(s.queues[h]) && t.live == s.live - Ids(s.queues[h])
    decreases |s.queues[h]|
  {
    hide QueuesOk, Owned, FreedOnce, WellMade;
    var q := s.queues[h];
    if q == [] {
      assert Ids([]) == {};
      assert s.queues == s.queues[h := []];
    } else {
      var p := Popped(s, h);
      var d := Deleted(p, q[0]);
      PoppedOk(s, h);
      DeletedOk(p, q[0]);
      assert d.queues[h] == q[1..];
      DrainedOk(d, h);
      HeldBack(s, h);
    }
  }

  /** Unfolding a drain. */
  lemma DrainedStep(s: State, h: Handle)
    requires h in s.queues
    ensures s.queues[h] == [] ==> Drained(s, h) == s
    ensures s.queues[h] != [] ==> Drained(s, h) == Drained(Deleted(Popped(s, h), s.queues[h][0]), h)
  {
  }

  /** Popping a message and deleting it at once leaves the other popped messages alone. */
  lemma HeldBack(s: State, h: Handle)
    requires Accounts(s) && h in s.queues && s.queues[h] != []
    ensures Deleted(Popped(s, h), s.queues[h][0]).held == s.held
    ensures Ids(s.queues[h]) == Ids(s.queues[h][1..]) + IdsOf(s.queues[h][0])
  {
    hide WellMade, Once;
    var q := s.queues[h];
    OncePop(q);
    InIds(q, 0);
    assert Ids(q) !! s.held;
  }

  /** When the queues are empty and every popped message was deleted, every payload ever allocated has
      been freed exactly once. */
  lemma EverythingFreedOnce(s: State)
    requires Accounts(s) && s.held == {} && forall h :: h in s.queues ==> s.queues[h] == []
    ensures s.live == map[]
    ensures forall id: nat :: id in s.freed <==> id < s.next
    ensures forall i, j :: 0 <= i < j < |s.freed| ==> s.freed[i] != s.freed[j]
  {
    hide QueuesOk;
    assert Ids([]) == {};
    assert forall h :: h in s.queues ==> Ids(s.queues[h]) == {};
    hide Ids;
    assert forall id :: id !in s.live;
  }

  /** `n` pops in a row, stopping when there is nothing left. */
  ghost function PoppedTimes(s: State, h: Handle, n: nat): State
    requires h in s.queues
    decreases n
  {
    if n == 0 || s.queues[h] == [] then s else PoppedTimes(Popped(s, h), h, n - 1)
  }

  lemma {:induction false} PoppedTimesOk(s: State, h: Handle, n: nat)
    requires Accounts(s) && h in s.queues
    ensures var t := PoppedTimes(s, h, n);
            Accounts(t) && t.queues == s.queues[h := s.queues[h][Min(n, |s.queues[h]|)..]]
            && t.live == s.live && t.freed == s.freed && t.next == s.next
            && t.held == s.held + Ids(s.queues[h][..Min(n, |s.queues[h]|)])
    decreases n
  {
    hide Accounts, Ids, IdsOf;
    var q := s.queues[h];
    FrontOf(q, n);
    if n != 0 && q != [] {
      PoppedOk(s, h);
      PoppedTimesOk(Popped(s, h), h, n - 1);
    }
  }

  /** The first `n` of a queue: none, or its first one and `n - 1` of the rest. */
  lemma FrontOf(q: seq<Msg>, n: nat)
    ensures n == 0 || q == [] ==> q[Min(n, |q|)..] == q && Ids(q[..Min(n, |q|)]) == {}
    ensures n > 0 && q != [] ==>
              q[Min(n, |q|)..] == q[1..][Min(n - 1, |q[1..]|)..]
              && Ids(q[..Min(n, |q|)]) == IdsOf(q[0]) + Ids(q[1..][..Min(n - 1, |q[1..]|)])
  {
    if n == 0 || q == [] {
      assert q[..Min(n, |q|)] == [];
    } else {
      var k := Min(n - 1, |q| - 1);
      assert q[..k + 1] == [q[0]] + q[1..][..k];
      hide Ids, IdsOf;
      IdsPush(q[1..][..k], q[0]);
    }
  }

  lemma NoPops(s: State, h: Handle)
    requires h in s.queues
    ensures PoppedTimes(s, h, 0) == s
  {
  }

  /** One pop more, done last. */
  lemma {:induction false} OnePopMore(s: State, h: Handle, n: nat)
    requires h in s.queues && n < |s.queues[h]|
    ensures h in PoppedTimes(s, h, n).queues && PoppedTimes(s, h, n).queues[h] == s.queues[h][n..]
    ensures PoppedTimes(s, h, n + 1) == Popped(PoppedTimes(s, h, n), h)
    decreases n
  {
    if n > 0 {
      OnePopMore(Popped(s, h), h, n - 1);
    }
  }

  lemma {:induction false} NoMorePops(s: State, h: Handle, n: nat)
    requires h in s.queues && n >= |s.queues[h]|
    ensures PoppedTimes(s, h, n) == PoppedTimes(s, h, |s.queues[h]|)
    ensures h in PoppedTimes(s, h, n).queues && PoppedTimes(s, h, n).queues[h] == []
    decreases n
  {
    if s.queues[h] != [] {
      NoMorePops(Popped(s, h), h, n - 1);
    }
  }

  /** Pops one at a time: what came out, and what is left. */
  ghost function Pops(q: seq<Msg>, n: nat): (seq<Msg>, seq<Msg>) {
    if n == 0 || q == [] then ([], q)
    else ([q[0]] + Pops(q[1..], n - 1).0, Pops(q[1..], n - 1).1)
  }

  lemma {:induction false} PopsArePrefix(q: seq<Msg>, n: nat)
    ensures Pops(q, n) == (q[..Min(n, |q|)], q[Min(n, |q|)..])
  {
    if n > 0 && q != [] {
      PopsArePrefix(q[1..], n - 1);
      var k := Min(n - 1, |q| - 1);
      assert Min(n, |q|) == k + 1;
      assert q[..k + 1] == [q[0]] + q[1..][..k];
      assert q[k + 1..] == q[1..][k..];
    }
  }
}
