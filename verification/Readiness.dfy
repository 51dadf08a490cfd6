/** When a resource is ready: its own status, and a count of its children that are not. Children tell
    their parents, those theirs, and so on. */
module Readiness {
  import opened LoaderProtocol

  /** One descriptor; the newest parent and the newest child are first in their lists. */
  datatype Node = Node(status: Status, notReady: nat, children: seq<Id>, parents: seq<Id>)

  type Nodes = map<Id, Node>

  predicate IsReady(n: Node) {
    n.status == Ready && n.notReady == 0
  }

  // ---------------------------------------------------------------- what the counts should be

  ghost predicate ReadyIn(t: Nodes, c: Id) {
    c in t && IsReady(t[c])
  }

  /** How many places of the list hold a child that is not ready. */
  ghost function Waiting(t: Nodes, kids: seq<Id>): nat {
    if kids == [] then 0
    else Waiting(t, kids[1..]) + if ReadyIn(t, kids[0]) then 0 else 1
  }

  /** A parent is in its child's list as often as the child in the parent's. */
  ghost predicate Mutual(t: Nodes) {
    && (forall p, c :: p in t && c in t[p].children ==> c in t)
    && (forall p, c :: c in t && p in t[c].parents ==> p in t)
    && forall p, c :: p in t && c in t ==> multiset(t[p].children)[c] == multiset(t[c].parents)[p]
  }

  /** Children form no cycle. */
  ghost predicate Ranked(t: Nodes, rank: map<Id, nat>, top: nat) {
    && (forall p :: p in t ==> p in rank && rank[p] <= top)
    && forall p, c :: p in t && c in t[p].children ==> c in rank && rank[c] < rank[p]
  }

  /** Every count is right once those in `owed` have been told that a child stopped being ready. */
  ghost predicate OwedMore(t: Nodes, owed: multiset<Id>) {
    forall p :: p in t ==> t[p].notReady + owed[p] == Waiting(t, t[p].children)
  }

  /** The same when a child became ready. */
  ghost predicate OwedLess(t: Nodes, owed: multiset<Id>) {
    forall p :: p in t ==> t[p].notReady == Waiting(t, t[p].children) + owed[p]
  }

  ghost predicate CountsRight(t: Nodes) {
    forall p :: p in t ==> t[p].notReady == Waiting(t, t[p].children)
  }

  lemma NothingOwed(t: Nodes)
    ensures CountsRight(t) <==> OwedMore(t, multiset{})
    ensures CountsRight(t) <==> OwedLess(t, multiset{})
  {
  }

  /** Same descriptors but for their counts. */
  ghost predicate SameButCounts(t: Nodes, t': Nodes) {
    && t.Keys == t'.Keys
    && forall d :: d in t ==> t[d].(notReady := 0) == t'[d].(notReady := 0)
  }

  lemma SameMutual(t: Nodes, t': Nodes, rank: map<Id, nat>, top: nat)
    requires SameButCounts(t, t')
    ensures Mutual(t) <==> Mutual(t')
    ensures Ranked(t, rank, top) <==> Ranked(t', rank, top)
  {
    SameLists(t, t');
    SameLists(t', t);
    if Mutual(t) { SameMutualOne(t, t'); }
    if Mutual(t') { SameMutualOne(t', t); }
    hide Mutual, SameButCounts;
  }

  lemma SameLists(t: Nodes, t': Nodes)
    requires SameButCounts(t, t')
    ensures SameButCounts(t', t)
    ensures forall d :: d in t ==> d in t' && t[d].children == t'[d].children && t[d].parents == t'[d].parents
  {
    forall d | d in t
      ensures t[d].children == t'[d].children && t[d].parents == t'[d].parents
    {
      assert t[d].(notReady := 0) == t'[d].(notReady := 0);
    }
  }

  lemma SameMutualOne(t: Nodes, t': Nodes)
    requires Mutual(t) && t.Keys == t'.Keys
    requires forall d :: d in t ==> t[d].children == t'[d].children && t[d].parents == t'[d].parents
    ensures Mutual(t')
  {
  }

  lemma CountSet(t: Nodes, p: Id, k: nat)
    requires p in t
    ensures SameButCounts(t, t[p := t[p].(notReady := k)])
  {
  }

  lemma SameSelf(t: Nodes)
    ensures SameButCounts(t, t)
  {
  }

  lemma SameTrans(t: Nodes, t': Nodes, t'': Nodes)
    requires SameButCounts(t, t') && SameButCounts(t', t'')
    ensures SameButCounts(t, t'')
  {
  }

  // ---------------------------------------------------------------- one descriptor changes

  /** Only `d` changes whether it is ready. */
  ghost predicate OnlyMaybe(t: Nodes, t': Nodes, d: Id) {
    forall c :: c != d ==> ReadyIn(t, c) == ReadyIn(t', c)
  }

  lemma {:induction false} WaitingSame(t: Nodes, t': Nodes, d: Id, kids: seq<Id>)
    requires OnlyMaybe(t, t', d) && ReadyIn(t, d) == ReadyIn(t', d)
    ensures Waiting(t', kids) == Waiting(t, kids)
  {
    if kids != [] {
      assert kids[0] != d ==> ReadyIn(t, kids[0]) == ReadyIn(t', kids[0]);
      WaitingSame(t, t', d, kids[1..]);
    }
  }

  lemma {:induction false} WaitingMore(t: Nodes, t': Nodes, d: Id, kids: seq<Id>)
    requires OnlyMaybe(t, t', d) && ReadyIn(t, d) && !ReadyIn(t', d)
    ensures Waiting(t', kids) == Waiting(t, kids) + multiset(kids)[d]
  {
    if kids != [] {
      assert kids[0] != d ==> ReadyIn(t, kids[0]) == ReadyIn(t', kids[0]);
      assert kids == [kids[0]] + kids[1..];
      WaitingMore(t, t', d, kids[1..]);
    }
  }

  /** A count goes up, or a status changes, and the parents do not notice. */
  lemma MoreSame(t: Nodes, t': Nodes, d: Id, n: Node, owed: multiset<Id>, owed': multiset<Id>)
    requires OwedMore(t, owed) && d in t && t' == t[d := n] && n.children == t[d].children
    requires IsReady(n) == IsReady(t[d])
    requires n.notReady + owed'[d] == t[d].notReady + owed[d] && forall p :: p != d ==> owed'[p] == owed[p]
    ensures OwedMore(t', owed')
  {
    forall p | p in t'
      ensures t'[p].notReady + owed'[p] == Waiting(t', t'[p].children)
    {
      WaitingSame(t, t', d, t[p].children);
    }
  }

  lemma MutualMade(t: Nodes)
    requires forall a, b :: a in t && b in t ==> multiset(t[a].children)[b] == multiset(t[b].parents)[a]
    requires forall a, b :: a in t && (b in t[a].children || b in t[a].parents) ==> b in t
    ensures Mutual(t)
  {
  }

  lemma MutualInside(t: Nodes, a: Id, b: Id)
    requires Mutual(t) && a in t && (b in t[a].children || b in t[a].parents)
    ensures b in t
  {
  }

  lemma MutualAt(t: Nodes, p: Id, c: Id)
    requires Mutual(t) && p in t && c in t
    ensures multiset(t[p].children)[c] == multiset(t[c].parents)[p]
  {
  }

  /** It stops being ready, and its parents are owed the news. */
  lemma MoreFlips(t: Nodes, t': Nodes, d: Id, n: Node, owed: multiset<Id>, owed': multiset<Id>)
    requires OwedMore(t, owed) && Mutual(t) && d in t && t' == t[d := n]
    requires n.children == t[d].children && n.parents == t[d].parents
    requires IsReady(t[d]) && !IsReady(n)
    requires n.notReady + owed'[d] == t[d].notReady + owed[d] && forall p :: p != d ==> owed'[p] == owed[p]
    ensures OwedMore(t', owed' + multiset(n.parents))
  {
    hide Mutual, Waiting;
    forall p | p in t'
      ensures t'[p].notReady + (owed' + multiset(n.parents))[p] == Waiting(t', t'[p].children)
    {
      WaitingMore(t, t', d, t[p].children);
      MutualAt(t, p, d);
    }
  }

  lemma LessSame(t: Nodes, t': Nodes, d: Id, n: Node, owed: multiset<Id>, owed': multiset<Id>)
    requires OwedLess(t, owed) && d in t && t' == t[d := n] && n.children == t[d].children
    requires IsReady(n) == IsReady(t[d])
    requires n.notReady + owed[d] == t[d].notReady + owed'[d] && forall p :: p != d ==> owed'[p] == owed[p]
    ensures OwedLess(t', owed')
  {
    forall p | p in t'
      ensures t'[p].notReady == Waiting(t', t'[p].children) + owed'[p]
    {
      WaitingSame(t, t', d, t[p].children);
    }
  }

  lemma LessFlips(t: Nodes, t': Nodes, d: Id, n: Node, owed: multiset<Id>, owed': multiset<Id>)
    requires OwedLess(t, owed) && Mutual(t) && d in t && t' == t[d := n]
    requires n.children == t[d].children && n.parents == t[d].parents
    requires !IsReady(t[d]) && IsReady(n)
    requires n.notReady + owed[d] == t[d].notReady + owed'[d] && forall p :: p != d ==> owed'[p] == owed[p]
    ensures OwedLess(t', owed' + multiset(n.parents))
  {
    hide Mutual, Waiting;
    forall p | p in t'
      ensures t'[p].notReady == Waiting(t', t'[p].children) + (owed' + multiset(n.parents))[p]
    {
      WaitingMore(t', t, d, t[p].children);
      MutualAt(t, p, d);
    }
  }

  // ---------------------------------------------------------------- what ready means

  /** The descriptor and everything below it have the status `Ready`. */
  ghost predicate AllReady(t: Nodes, rank: map<Id, nat>, top: nat, d: Id)
    requires Ranked(t, rank, top) && Mutual(t) && d in t
    decreases rank[d]
  {
    t[d].status == Ready && forall c :: c in t[d].children ==> AllReady(t, rank, top, c)
  }

  lemma {:induction false} WaitingNone(t: Nodes, kids: seq<Id>)
    ensures Waiting(t, kids) == 0 <==> forall c :: c in kids ==> ReadyIn(t, c)
  {
    if kids != [] {
      WaitingNone(t, kids[1..]);
      assert kids[0] in kids && forall c :: c in kids ==> c == kids[0] || c in kids[1..];
    }
  }

  /** With right counts, ready means that everything below is. */
  lemma {:induction false} ReadyMeans(t: Nodes, rank: map<Id, nat>, top: nat, d: Id)
    requires Ranked(t, rank, top) && Mutual(t) && CountsRight(t) && d in t
    ensures IsReady(t[d]) <==> AllReady(t, rank, top, d)
    decreases rank[d]
  {
    WaitingNone(t, t[d].children);
    forall c | c in t[d].children
      ensures ReadyIn(t, c) <==> AllReady(t, rank, top, c)
    {
      ReadyMeans(t, rank, top, c);
    }
  }

  /** Statuses and lists leave no choice for the counts. */
  lemma CountsAreDetermined(t: Nodes, t': Nodes, rank: map<Id, nat>, top: nat)
    requires SameButCounts(t, t') && Ranked(t, rank, top) && Mutual(t) && CountsRight(t) && CountsRight(t')
    ensures t == t'
  {
    SameMutual(t, t', rank, top);
    forall d | d in t
      ensures IsReady(t[d]) <==> IsReady(t'[d])
    {
      ReadyMeans(t, rank, top, d);
      ReadyMeans(t', rank, top, d);
      SameAllReady(t, t', rank, top, d);
    }
    forall d | d in t
      ensures t[d] == t'[d]
    {
      assert t[d].(notReady := 0) == t'[d].(notReady := 0);
      WaitingAgrees(t, t', t[d].children);
    }
  }

  lemma {:induction false} SameAllReady(t: Nodes, t': Nodes, rank: map<Id, nat>, top: nat, d: Id)
    requires SameButCounts(t, t') && Ranked(t, rank, top) && Mutual(t) && d in t
    requires Ranked(t', rank, top) && Mutual(t')
    ensures AllReady(t, rank, top, d) <==> AllReady(t', rank, top, d)
    decreases rank[d]
  {
    assert t[d].(notReady := 0) == t'[d].(notReady := 0);
    forall c | c in t[d].children
      ensures AllReady(t, rank, top, c) <==> AllReady(t', rank, top, c)
    {
      SameAllReady(t, t', rank, top, c);
    }
  }

  lemma {:induction false} WaitingAgrees(t: Nodes, t': Nodes, kids: seq<Id>)
    requires forall c :: c in kids ==> ReadyIn(t, c) == ReadyIn(t', c)
    ensures Waiting(t, kids) == Waiting(t', kids)
  {
    if kids != [] {
      assert kids[0] in kids;
      WaitingAgrees(t, t', kids[1..]);
    }
  }

  // ---------------------------------------------------------------- lists of children and parents

  /** After `c` became a child of `p`. */
  ghost function Linked(t: Nodes, p: Id, c: Id): Nodes
    requires p in t && c in t && p != c
  {
    t[p := t[p].(children := [c] + t[p].children)][c := t[c].(parents := [p] + t[c].parents)]
  }

  lemma InFront(x: Id, list: seq<Id>, y: Id)
    ensures multiset([x] + list)[y] == multiset(list)[y] + if y == x then 1 else 0
  {
    assert multiset([x] + list) == multiset{x} + multiset(list);
  }

  /** One more place on either side of the new edge, and nothing else. */
  lemma LinkedLists(t: Nodes, p: Id, c: Id, a: Id, b: Id)
    requires p in t && c in t && p != c && a in t
    ensures var t', more := Linked(t, p, c), if a == p && b == c then 1 else 0;
            && a in t'
            && multiset(t'[a].children)[b] == multiset(t[a].children)[b] + more
            && multiset(t'[a].parents)[b] == multiset(t[a].parents)[b] + if a == c && b == p then 1 else 0
  {
    InFront(c, t[a].children, b);
    InFront(p, t[a].parents, b);
  }

  lemma LinkedMutual(t: Nodes, p: Id, c: Id)
    requires Mutual(t) && p in t && c in t && p != c
    ensures Mutual(Linked(t, p, c))
  {
    var t' := Linked(t, p, c);
    assert t'.Keys == t.Keys;
    hide Linked;
    forall a, b | a in t && b in t
      ensures multiset(t'[a].children)[b] == multiset(t'[b].parents)[a]
    {
      MutualAt(t, a, b);
      LinkedLists(t, p, c, a, b);
      LinkedLists(t, p, c, b, a);
    }
    LinkedInside(t, p, c);
  }

  lemma LinkedMembers(t: Nodes, p: Id, c: Id, a: Id, b: Id)
    requires p in t && c in t && p != c && a in t
    ensures var t' := Linked(t, p, c);
            && a in t'
            && (b in t'[a].children <==> b in t[a].children || (a == p && b == c))
            && (b in t'[a].parents <==> b in t[a].parents || (a == c && b == p))
  {
  }

  lemma LinkedInside(t: Nodes, p: Id, c: Id)
    requires Mutual(t) && p in t && c in t && p != c
    ensures var t' := Linked(t, p, c);
            && (forall a, b :: a in t' && b in t'[a].children ==> b in t')
            && forall a, b :: b in t' && a in t'[b].parents ==> a in t'
  {
    var t' := Linked(t, p, c);
    assert t'.Keys == t.Keys;
    hide Linked;
    forall a, b | a in t && (b in t'[a].children || b in t'[a].parents)
      ensures b in t
    {
      LinkedMembers(t, p, c, a, b);
    }
  }

  lemma LinkedKeys(t: Nodes, p: Id, c: Id)
    requires p in t && c in t && p != c
    ensures p in Linked(t, p, c) && c in Linked(t, p, c) && IsReady(Linked(t, p, c)[c]) == IsReady(t[c])
  {
  }

  lemma LinkedOwes(t: Nodes, p: Id, c: Id)
    requires CountsRight(t) && p in t && c in t && p != c
    ensures OwedMore(Linked(t, p, c), if IsReady(t[c]) then multiset{} else multiset{p})
  {
    var t' := Linked(t, p, c);
    forall q | q in t'
      ensures t'[q].notReady + (if IsReady(t[c]) then multiset{} else multiset{p})[q] == Waiting(t', t'[q].children)
    {
      WaitingSame(t, t', p, t[q].children);
      if q == p {
        assert t'[p].children[1..] == t[p].children;
      }
    }
  }

  /** How far below the top a descriptor is: telling goes up. */
  ghost function Level(rank: map<Id, nat>, top: nat, d: Id): nat {
    if d in rank && rank[d] <= top then top - rank[d] else 0
  }

  class Resources {
    var nodes: Nodes
    ghost var rank: map<Id, nat>
    ghost var top: nat

    ghost predicate Shaped()
      reads this
    {
      Mutual(nodes) && Ranked(nodes, rank, top)
    }

    ghost predicate Valid()
      reads this
    {
      Shaped() && CountsRight(nodes)
    }

    constructor ()
      ensures Valid() && nodes == map[]
    {
      nodes, rank, top := map[], map[], 0;
    }

    /** `internal__on_children_become_notready`, for the first of `owed`. */
    method ChildNotReady(p: Id, ghost owed: multiset<Id>)
      requires Shaped() && OwedMore(nodes, owed) && p in owed && p in nodes
      modifies this`nodes
      ensures Shaped() && OwedMore(nodes, owed - multiset{p}) && SameButCounts(old(nodes), nodes)
      decreases Level(rank, top, p), 1
    {
      hide Mutual, Ranked, Waiting, SameButCounts, OwedMore;
      ghost var left := MoreTold(nodes, p, owed);
      var n := nodes[p];
      nodes := nodes[p := n.(notReady := n.notReady + 1)];
      SameMutual(old(nodes), nodes, rank, top);
      if IsReady(n) {
        ghost var told := nodes;
        assert n.parents == [] ==> left + multiset(n.parents) == left;
        TellNotReady(p, left);
        SameTrans(old(nodes), told, nodes);
      }
    }

    /** The loop over the parents of a descriptor that stopped being ready. */
    method TellNotReady(d: Id, ghost owed: multiset<Id>)
      requires d in nodes
      requires nodes[d].parents == [] || (Shaped() && OwedMore(nodes, owed + multiset(nodes[d].parents)))
      modifies this`nodes
      ensures old(nodes)[d].parents == [] ==> nodes == old(nodes)
      ensures old(nodes)[d].parents != [] ==> Shaped() && OwedMore(nodes, owed) && SameButCounts(old(nodes), nodes)
      decreases Level(rank, top, d), 0
    {
      var list := nodes[d].parents;
      var i := 0;
      assert list[0..] == list;
      while i < |list|
        invariant i <= |list| && (list != [] ==> Shaped() && SameButCounts(old(nodes), nodes))
        invariant list == [] ==> nodes == old(nodes)
        invariant list != [] ==> OwedMore(nodes, owed + multiset(list[i..]))
      {
        ghost var was := nodes;
        ghost var rest := owed + multiset(list[i..]);
        TailOf(list, i, owed);
        ParentIsHigher(old(nodes), rank, top, d, list[i]);
        ChildNotReady(list[i], rest);
        SameTrans(old(nodes), was, nodes);
        i := i + 1;
      }
      assert owed + multiset(list[i..]) == owed;
    }

    /** `internal__on_children_become_ready`; its assertion that the count is positive holds. */
    method ChildReady(p: Id, ghost owed: multiset<Id>)
      requires Shaped() && OwedLess(nodes, owed) && p in owed && p in nodes
      modifies this`nodes
      ensures Shaped() && OwedLess(nodes, owed - multiset{p}) && SameButCounts(old(nodes), nodes)
      decreases Level(rank, top, p), 1
    {
      hide Mutual, Ranked, Waiting, SameButCounts, OwedLess;
      ghost var left := LessTold(nodes, p, owed);
      var n := nodes[p];
      assert n.notReady > 0;
      var n' := n.(notReady := n.notReady - 1);
      nodes := nodes[p := n'];
      SameMutual(old(nodes), nodes, rank, top);
      if !IsReady(n) && IsReady(n') {
        ghost var told := nodes;
        assert n.parents == [] ==> left + multiset(n.parents) == left;
        TellReady(p, left);
        SameTrans(old(nodes), told, nodes);
      }
    }

    method TellReady(d: Id, ghost owed: multiset<Id>)
      requires d in nodes
      requires nodes[d].parents == [] || (Shaped() && OwedLess(nodes, owed + multiset(nodes[d].parents)))
      modifies this`nodes
      ensures old(nodes)[d].parents == [] ==> nodes == old(nodes)
      ensures old(nodes)[d].parents != [] ==> Shaped() && OwedLess(nodes, owed) && SameButCounts(old(nodes), nodes)
      decreases Level(rank, top, d), 0
    {
      var list := nodes[d].parents;
      var i := 0;
      assert list[0..] == list;
      while i < |list|
        invariant i <= |list| && (list != [] ==> Shaped() && SameButCounts(old(nodes), nodes))
        invariant list == [] ==> nodes == old(nodes)
        invariant list != [] ==> OwedLess(nodes, owed + multiset(list[i..]))
      {
        ghost var was := nodes;
        ghost var rest := owed + multiset(list[i..]);
        TailOf(list, i, owed);
        ParentIsHigher(old(nodes), rank, top, d, list[i]);
        ChildReady(list[i], rest);
        SameTrans(old(nodes), was, nodes);
        i := i + 1;
      }
      assert owed + multiset(list[i..]) == owed;
    }

    /** `change_state`: the status changes, and all counts that depend on it, however far away. A descriptor
        that has no parent in its list tells nobody. */
    method ChangeState(d: Id, status: Status)
      requires d in nodes && (Valid() || nodes[d].parents == [])
      modifies this`nodes
      ensures old(Valid()) ==> Valid() && SameButCounts(old(nodes)[d := old(nodes)[d].(status := status)], nodes)
      ensures old(nodes)[d].parents == [] ==> nodes == old(nodes)[d := old(nodes)[d].(status := status)]
    {
      hide Mutual, Ranked, CountsRight, OwedMore, OwedLess, SameButCounts;
      var n := nodes[d];
      ghost var was, valid := nodes, Valid();
      SameSelf(nodes);
      if n.status == status {
        assert nodes == nodes[d := n.(status := status)];
        return;
      }
      var n' := n.(status := status);
      nodes := nodes[d := n'];
      SameSelf(nodes);
      if valid {
        StatusChanges(was, d, n', rank, top);
      }
      if IsReady(n) && !IsReady(n') {
        TellNotReady(d, multiset{});
      } else if IsReady(n') && !IsReady(n) {
        TellReady(d, multiset{});
      }
      NothingOwed(nodes);
    }

    /** `add_child`; `newRank` shows that there is still no cycle. */
    method AddChild(p: Id, c: Id, ghost newRank: map<Id, nat>, ghost newTop: nat)
      requires Valid() && p in nodes && c in nodes && p != c
      requires Ranked(Linked(nodes, p, c), newRank, newTop)
      modifies this
      ensures Valid() && p in old(nodes) && c in old(nodes) && SameButCounts(Linked(old(nodes), p, c), nodes)
      ensures rank == newRank && top == newTop
    {
      hide Mutual, Ranked, Waiting, SameButCounts, OwedMore, CountsRight;
      nodes := nodes[p := nodes[p].(children := [c] + nodes[p].children)];
      nodes := nodes[c := nodes[c].(parents := [p] + nodes[c].parents)];
      ghost var was := old(nodes);
      assert nodes == Linked(was, p, c);
      hide Linked;
      rank, top := newRank, newTop;
      LinkedMutual(was, p, c);
      LinkedOwes(was, p, c);
      LinkedKeys(was, p, c);
      SameSelf(nodes);
      if !IsReady(nodes[c]) {
        ChildNotReady(p, multiset{p});
        assert multiset{p} - multiset{p} == multiset{};
      }
      NothingOwed(nodes);
    }

    /** A new descriptor, without children. */
    method Create(d: Id, status: Status)
      requires Valid() && d !in nodes
      modifies this
      ensures Valid() && nodes == old(nodes)[d := Node(status, 0, [], [])]
      ensures rank == old(rank)[d := 0] && top == old(top)
    {
      nodes := nodes[d := Node(status, 0, [], [])];
      rank := rank[d := 0];
      CreatedMutual(old(nodes), old(rank), top, d, status);
      CreatedCounts(old(nodes), d, status);
      hide Mutual, Ranked, CountsRight;
    }

    /** `remove_child`. The list of parents loses all those in front of `p` as well, and when `p` becomes ready
        by this its own parents are not told. The counts and the lists stay right exactly when neither
        happens. */
    method RemoveChild(p: Id, c: Id)
      requires Valid() && p in nodes && c in nodes
      modifies this`nodes
      ensures c !in old(nodes)[p].children ==> nodes == old(nodes)
      ensures c in old(nodes)[p].children ==>
                && nodes == Unlinked(old(nodes), p, c)
                && (Shaped() <==> old(nodes)[c].parents[0] == p)
                && (CountsRight(nodes) <==> !GoesReady(old(nodes), p, c) || old(nodes)[p].parents == [])
    {
      hide Mutual, Ranked, Waiting, CountsRight;
      if c !in nodes[p].children {
        return;
      }
      ghost var was := nodes;
      BothLists(was, rank, top, p, c);
      UnlinkedShape(was, rank, top, p, c);
      UnlinkedCounts(was, rank, top, p, c);
      nodes := nodes[p := nodes[p].(children := Without(nodes[p].children, c))];
      if !IsReady(nodes[c]) {
        assert nodes[p].notReady > 0;
        nodes := nodes[p := nodes[p].(notReady := nodes[p].notReady - 1)];
      }
      nodes := nodes[c := nodes[c].(parents := After(nodes[c].parents, p))];
    }
  }

  lemma OneTold(owed: multiset<Id>, p: Id) returns (left: multiset<Id>)
    requires p in owed
    ensures left == owed - multiset{p} && left[p] + 1 == owed[p] && forall q :: q != p ==> left[q] == owed[q]
  {
    left := owed - multiset{p};
  }

  /** One parent is told that a child stopped being ready. */
  lemma MoreTold(t: Nodes, p: Id, owed: multiset<Id>) returns (left: multiset<Id>)
    requires Mutual(t) && OwedMore(t, owed) && p in owed && p in t
    ensures left == owed - multiset{p}
    ensures var t' := t[p := t[p].(notReady := t[p].notReady + 1)];
            && SameButCounts(t, t')
            && OwedMore(t', if IsReady(t[p]) then left + multiset(t[p].parents) else left)
  {
    left := OneTold(owed, p);
    hide Mutual, Waiting, OwedMore, SameButCounts;
    var n := t[p].(notReady := t[p].notReady + 1);
    CountSet(t, p, n.notReady);
    if IsReady(t[p]) {
      MoreFlips(t, t[p := n], p, n, owed, left);
    } else {
      MoreSame(t, t[p := n], p, n, owed, left);
    }
  }

  lemma LessTold(t: Nodes, p: Id, owed: multiset<Id>) returns (left: multiset<Id>)
    requires Mutual(t) && OwedLess(t, owed) && p in owed && p in t
    ensures left == owed - multiset{p} && t[p].notReady > 0
    ensures var n := t[p].(notReady := t[p].notReady - 1);
            && SameButCounts(t, t[p := n])
            && OwedLess(t[p := n], if !IsReady(t[p]) && IsReady(n) then left + multiset(n.parents) else left)
  {
    assert t[p].notReady > 0;
    left := OneTold(owed, p);
    hide Mutual, Waiting, OwedLess, SameButCounts;
    var n := t[p].(notReady := t[p].notReady - 1);
    CountSet(t, p, n.notReady);
    if !IsReady(t[p]) && IsReady(n) {
      LessFlips(t, t[p := n], p, n, owed, left);
    } else {
      LessSame(t, t[p := n], p, n, owed, left);
    }
  }

  lemma TailOf(list: seq<Id>, i: nat, owed: multiset<Id>)
    requires i < |list|
    ensures list[i] in owed + multiset(list[i..])
    ensures owed + multiset(list[i..]) - multiset{list[i]} == owed + multiset(list[i + 1..])
  {
    assert list[i..] == [list[i]] + list[i + 1..];
  }

  lemma ParentIsHigher(t: Nodes, rank: map<Id, nat>, top: nat, d: Id, p: Id)
    requires Mutual(t) && Ranked(t, rank, top) && d in t && p in t[d].parents
    ensures p in t && rank[d] < rank[p] <= top
  {
    assert multiset(t[p].children)[d] == multiset(t[d].parents)[p] > 0;
  }

  lemma StatusMutual(t: Nodes, d: Id, n: Node, rank: map<Id, nat>, top: nat)
    requires Mutual(t) && Ranked(t, rank, top) && d in t
    requires n.children == t[d].children && n.parents == t[d].parents
    ensures Mutual(t[d := n]) && Ranked(t[d := n], rank, top)
  {
  }

  lemma StatusChanges(t: Nodes, d: Id, n: Node, rank: map<Id, nat>, top: nat)
    requires Mutual(t) && Ranked(t, rank, top) && CountsRight(t) && d in t
    requires n == t[d].(status := n.status)
    ensures var t' := t[d := n];
            && Mutual(t') && Ranked(t', rank, top)
            && (if IsReady(t[d]) && !IsReady(n) then OwedMore(t', multiset{} + multiset(n.parents))
                else if IsReady(n) && !IsReady(t[d]) then OwedLess(t', multiset{} + multiset(n.parents))
                else CountsRight(t'))
            && (n.parents == [] ==> CountsRight(t'))
  {
    hide Mutual, Ranked, CountsRight, OwedMore, OwedLess;
    var t' := t[d := n];
    StatusMutual(t, d, n, rank, top);
    NothingOwed(t);
    NothingOwed(t');
    assert n.parents == [] ==> multiset{} + multiset(n.parents) == multiset{};
    if IsReady(t[d]) && !IsReady(n) {
      MoreFlips(t, t', d, n, multiset{}, multiset{});
    } else if IsReady(n) && !IsReady(t[d]) {
      LessFlips(t, t', d, n, multiset{}, multiset{});
    } else {
      MoreSame(t, t', d, n, multiset{}, multiset{});
    }
  }

  lemma CreatedMutual(t: Nodes, rank: map<Id, nat>, top: nat, d: Id, status: Status)
    requires Mutual(t) && Ranked(t, rank, top) && d !in t
    ensures Mutual(t[d := Node(status, 0, [], [])]) && Ranked(t[d := Node(status, 0, [], [])], rank[d := 0], top)
  {
    var t' := t[d := Node(status, 0, [], [])];
    CreatedRanked(t, rank, top, d, Node(status, 0, [], []));
    hide Mutual, Ranked;
    forall a, b | a in t' && b in t'
      ensures multiset(t'[a].children)[b] == multiset(t'[b].parents)[a]
    {
      if a in t && b in t {
        MutualAt(t, a, b);
      } else if a in t {
        if d in t[a].children { MutualInside(t, a, d); }
      } else if b in t {
        if d in t[b].parents { MutualInside(t, b, d); }
      }
    }
    forall a, b | a in t && (b in t[a].children || b in t[a].parents) ensures b in t {
      MutualInside(t, a, b);
    }
    MutualMade(t');
  }

  lemma CreatedRanked(t: Nodes, rank: map<Id, nat>, top: nat, d: Id, n: Node)
    requires Mutual(t) && Ranked(t, rank, top) && d !in t && n.children == []
    ensures Ranked(t[d := n], rank[d := 0], top)
  {
  }

  lemma CreatedCounts(t: Nodes, d: Id, status: Status)
    requires Mutual(t) && CountsRight(t) && d !in t
    ensures CountsRight(t[d := Node(status, 0, [], [])])
  {
    var t' := t[d := Node(status, 0, [], [])];
    forall p | p in t
      ensures Waiting(t', t[p].children) == Waiting(t, t[p].children)
    {
      WaitingAgrees(t', t, t[p].children);
    }
  }

  // ---------------------------------------------------------------- removing a child

  /** What is behind the first `p`. */
  function After(list: seq<Id>, p: Id): seq<Id> {
    if p in list then list[IndexOf(list, p) + 1..] else list
  }

  ghost function Unlinked(t: Nodes, p: Id, c: Id): Nodes
    requires p in t && c in t && c in t[p].children
  {
    var count := if IsReady(t[c]) || t[p].notReady == 0 then t[p].notReady else t[p].notReady - 1;
    var t' := t[p := t[p].(children := Without(t[p].children, c), notReady := count)];
    t'[c := t'[c].(parents := After(t'[c].parents, p))]
  }

  /** Its last child that was not ready is taken from it. */
  ghost predicate GoesReady(t: Nodes, p: Id, c: Id)
    requires p in t && c in t
  {
    t[p].status == Ready && t[p].notReady == 1 && !IsReady(t[c])
  }

  lemma BothLists(t: Nodes, rank: map<Id, nat>, top: nat, p: Id, c: Id)
    requires Mutual(t) && Ranked(t, rank, top) && CountsRight(t) && p in t && c in t && c in t[p].children
    ensures p in t[c].parents && p != c && (!IsReady(t[c]) ==> t[p].notReady > 0)
  {
    assert multiset(t[p].children)[c] == multiset(t[c].parents)[p];
    WaitingNone(t, t[p].children);
    assert ReadyIn(t, c) <==> IsReady(t[c]);
  }

  lemma UnlinkedFields(t: Nodes, p: Id, c: Id)
    requires p in t && c in t && c in t[p].children && p != c
    ensures var t' := Unlinked(t, p, c);
            && t'.Keys == t.Keys
            && t'[p].children == Without(t[p].children, c) && t'[p].parents == t[p].parents
            && t'[c].parents == After(t[c].parents, p) && t'[c].children == t[c].children
            && (forall d :: d in t && d != p && d != c ==> t'[d] == t[d])
            && t'[p].status == t[p].status && t'[c].status == t[c].status && t'[c].notReady == t[c].notReady
            && t'[p].notReady == if IsReady(t[c]) || t[p].notReady == 0 then t[p].notReady else t[p].notReady - 1
  {
  }

  /** What is in front of the first `x`, that place, and what is behind it. */
  lemma Between(list: seq<Id>, x: Id, y: Id)
    requires x in list
    ensures var k := IndexOf(list, x);
            var front, behind := multiset(list[..k]), multiset(list[k + 1..]);
            && multiset(list)[y] == front[y] + behind[y] + (if y == x then 1 else 0)
            && multiset(Without(list, x))[y] == front[y] + behind[y]
  {
    var k := IndexOf(list, x);
    hide IndexOf;
    Parts(list[..k], x, list[k + 1..], y);
    assert list == list[..k] + [x] + list[k + 1..];
  }

  lemma Parts(a: seq<Id>, x: Id, b: seq<Id>, y: Id)
    ensures multiset(a + [x] + b)[y] == multiset(a)[y] + multiset(b)[y] + (if y == x then 1 else 0)
    ensures multiset(a + b)[y] == multiset(a)[y] + multiset(b)[y]
  {
    assert multiset(a + [x] + b) == multiset(a) + multiset{x} + multiset(b);
    assert multiset(a + b) == multiset(a) + multiset(b);
  }

  lemma WithoutCounts(list: seq<Id>, x: Id, y: Id)
    requires x in list
    ensures multiset(Without(list, x))[y] == multiset(list)[y] - if y == x then 1 else 0
  {
    Between(list, x, y);
  }

  lemma AfterCounts(list: seq<Id>, p: Id, y: Id)
    requires p in list
    ensures var k := IndexOf(list, p);
            multiset(list)[y] == multiset(list[..k])[y] + (if y == p then 1 else 0) + multiset(After(list, p))[y]
  {
    Between(list, p, y);
  }

  lemma UnlinkedShape(t: Nodes, rank: map<Id, nat>, top: nat, p: Id, c: Id)
    requires Mutual(t) && Ranked(t, rank, top) && p in t && c in t && c in t[p].children && p != c
    requires p in t[c].parents
    ensures var t' := Unlinked(t, p, c);
            Mutual(t') && Ranked(t', rank, top) <==> t[c].parents[0] == p
  {
    var t' := Unlinked(t, p, c);
    UnlinkedFields(t, p, c);
    hide Unlinked, After, IndexOf, Without;
    UnlinkedRanked(t, t', rank, top, p, c);
    if t[c].parents[0] == p {
      FrontIsFirst(t[c].parents, p);
      UnlinkedMutual(t, t', p, c);
    } else {
      var q := t[c].parents[0];
      FrontIsFirst(t[c].parents, p);
      OneLost(t, t', p, c, q);
    }
  }

  lemma FrontIsFirst(list: seq<Id>, p: Id)
    requires p in list
    ensures list[0] == p <==> IndexOf(list, p) == 0
  {
  }

  lemma UnlinkedRanked(t: Nodes, t': Nodes, rank: map<Id, nat>, top: nat, p: Id, c: Id)
    requires Ranked(t, rank, top) && t.Keys == t'.Keys && p in t && c in t && c in t[p].children
    requires t'[p].children == Without(t[p].children, c)
    requires forall d :: d in t && d != p ==> t'[d].children == t[d].children
    ensures Ranked(t', rank, top)
  {
    hide Without;
    forall x | x in t'[p].children ensures x in t[p].children {
      WithoutCounts(t[p].children, c, x);
      assert multiset(t'[p].children)[x] > 0;
    }
  }

  /** Without anything in front of `p` both sides lose one place. */
  lemma UnlinkedMutual(t: Nodes, t': Nodes, p: Id, c: Id)
    requires Mutual(t) && t.Keys == t'.Keys && p in t && c in t && c in t[p].children && p in t[c].parents && p != c
    requires t'[p].children == Without(t[p].children, c) && t'[p].parents == t[p].parents
    requires t'[c].parents == After(t[c].parents, p) && t'[c].children == t[c].children
    requires forall d :: d in t && d != p && d != c ==> t'[d] == t[d]
    requires IndexOf(t[c].parents, p) == 0
    ensures Mutual(t')
  {
    hide Without, After, IndexOf, Mutual;
    forall a, b | a in t && b in t
      ensures multiset(t'[a].children)[b] == multiset(t'[b].parents)[a]
    {
      MutualAt(t, a, b);
      ChildrenAfter(t, t', p, c, a, b);
      ParentsAfter(t, t', p, c, b, a);
    }
    forall a, b | a in t && (b in t'[a].children || b in t'[a].parents)
      ensures b in t
    {
      ChildrenAfter(t, t', p, c, a, b);
      ParentsAfter(t, t', p, c, a, b);
      InsideBefore(t, t', a, b);
    }
    MutualMade(t');
  }

  lemma InsideBefore(t: Nodes, t': Nodes, a: Id, b: Id)
    requires Mutual(t) && a in t && a in t' && (b in t'[a].children || b in t'[a].parents)
    requires multiset(t'[a].children)[b] <= multiset(t[a].children)[b]
    requires multiset(t'[a].parents)[b] <= multiset(t[a].parents)[b]
    ensures b in t
  {
    hide Mutual;
    assert multiset(t[a].children)[b] > 0 || multiset(t[a].parents)[b] > 0;
    MutualInside(t, a, b);
  }

  lemma ChildrenAfter(t: Nodes, t': Nodes, p: Id, c: Id, a: Id, b: Id)
    requires t.Keys == t'.Keys && p in t && c in t[p].children && a in t
    requires t'[p].children == Without(t[p].children, c) && (a != p ==> t'[a].children == t[a].children)
    ensures multiset(t'[a].children)[b] == multiset(t[a].children)[b] - if a == p && b == c then 1 else 0
  {
    hide Without;
    WithoutCounts(t[p].children, c, b);
  }

  lemma ParentsAfter(t: Nodes, t': Nodes, p: Id, c: Id, a: Id, b: Id)
    requires t.Keys == t'.Keys && c in t && p in t[c].parents && a in t && IndexOf(t[c].parents, p) == 0
    requires t'[c].parents == After(t[c].parents, p) && (a != c ==> t'[a].parents == t[a].parents)
    ensures multiset(t'[a].parents)[b] == multiset(t[a].parents)[b] - if a == c && b == p then 1 else 0
  {
    hide After, IndexOf;
    AfterCounts(t[c].parents, p, b);
  }

  /** The parent in front forgets nothing, but is forgotten. */
  lemma OneLost(t: Nodes, t': Nodes, p: Id, c: Id, q: Id)
    requires Mutual(t) && t.Keys == t'.Keys && p in t && c in t && p in t[c].parents && p != c && q != p
    requires t[c].parents[0] == q && IndexOf(t[c].parents, p) > 0
    requires t'[c].parents == After(t[c].parents, p)
    requires q in t ==> t'[q].children == t[q].children
    ensures !Mutual(t')
  {
    hide After, IndexOf;
    AfterCounts(t[c].parents, p, q);
    var k := IndexOf(t[c].parents, p);
    assert t[c].parents[..k][0] == q;
    assert multiset(t[c].parents[..k])[q] > 0;
    MutualAt(t, q, c);
  }

  lemma UnlinkedCounts(t: Nodes, rank: map<Id, nat>, top: nat, p: Id, c: Id)
    requires Mutual(t) && Ranked(t, rank, top) && CountsRight(t) && p in t && c in t && c in t[p].children && p != c
    requires !IsReady(t[c]) ==> t[p].notReady > 0
    ensures CountsRight(Unlinked(t, p, c)) <==> !GoesReady(t, p, c) || t[p].parents == []
  {
    var t' := Unlinked(t, p, c);
    UnlinkedFields(t, p, c);
    hide Unlinked, After, Without;
    MaybeReady(t, t', p, c);
    hide OnlyMaybe, ReadyIn;
    NotOwnParent(t, rank, top, p);
    OwnCount(t, t', p, c);
    hide Ranked;
    if GoesReady(t, p, c) && t[p].parents != [] {
      var q := t[p].parents[0];
      OtherCount(t, t', p, c, q);
      assert multiset(t[p].parents)[q] > 0;
      assert t'[q].notReady != Waiting(t', t'[q].children);
    } else {
      forall q | q in t && q != p
        ensures t'[q].notReady == Waiting(t', t'[q].children)
      {
        OtherCount(t, t', p, c, q);
      }
    }
  }

  lemma OtherCount(t: Nodes, t': Nodes, p: Id, c: Id, q: Id)
    requires Mutual(t) && CountsRight(t) && p in t && c in t && q in t && q in t' && q != p
    requires t'[q].children == t[q].children && t'[q].notReady == t[q].notReady
    requires OnlyMaybe(t', t, p) && (ReadyIn(t, p) ==> ReadyIn(t', p))
    requires ReadyIn(t', p) && !ReadyIn(t, p) <==> GoesReady(t, p, c)
    ensures t'[q].notReady
            == Waiting(t', t'[q].children) + if GoesReady(t, p, c) then multiset(t[p].parents)[q] else 0
  {
    hide OnlyMaybe, ReadyIn, GoesReady, Mutual;
    MutualAt(t, q, p);
    WaitingChange(t', t, p, t'[q].children);
  }

  /** What `Unlinked` does to who is ready. */
  lemma MaybeReady(t: Nodes, t': Nodes, p: Id, c: Id)
    requires t.Keys == t'.Keys && p in t && c in t && p != c
    requires forall d :: d in t && d != p && d != c ==> t'[d] == t[d]
    requires t'[p].status == t[p].status && t'[c].status == t[c].status && t'[c].notReady == t[c].notReady
    requires t'[p].notReady == if IsReady(t[c]) then t[p].notReady else t[p].notReady - 1
    ensures OnlyMaybe(t', t, p) && (ReadyIn(t, p) ==> ReadyIn(t', p))
    ensures ReadyIn(t', p) && !ReadyIn(t, p) <==> GoesReady(t, p, c)
    ensures ReadyIn(t, c) <==> IsReady(t[c])
  {
  }

  lemma NotOwnParent(t: Nodes, rank: map<Id, nat>, top: nat, p: Id)
    requires Mutual(t) && Ranked(t, rank, top) && p in t
    ensures multiset(t[p].children)[p] == 0
    ensures forall q :: q in t[p].parents ==> q in t && q != p
  {
    assert p !in t[p].children;
    MutualAt(t, p, p);
  }

  lemma OwnCount(t: Nodes, t': Nodes, p: Id, c: Id)
    requires p in t && p in t' && c in t[p].children && multiset(t[p].children)[p] == 0 && CountsRight(t) && p != c
    requires OnlyMaybe(t', t, p) && (ReadyIn(t, p) ==> ReadyIn(t', p)) && (ReadyIn(t, c) <==> c in t && IsReady(t[c]))
    requires t'[p].children == Without(t[p].children, c)
    requires t'[p].notReady == if c in t && IsReady(t[c]) then t[p].notReady else t[p].notReady - 1
    ensures t'[p].notReady == Waiting(t', t'[p].children)
  {
    hide OnlyMaybe, ReadyIn, Without;
    WaitingChange(t', t, p, t'[p].children);
    WaitingWithout(t, t[p].children, c);
    WithoutCounts(t[p].children, c, p);
  }

  /** Taking `p` to be ready in `t` and maybe not in `t'`. */
  lemma WaitingChange(t: Nodes, t': Nodes, p: Id, kids: seq<Id>)
    requires OnlyMaybe(t, t', p) && (ReadyIn(t', p) ==> ReadyIn(t, p))
    ensures Waiting(t', kids) == Waiting(t, kids) + if ReadyIn(t, p) && !ReadyIn(t', p) then multiset(kids)[p] else 0
  {
    if ReadyIn(t, p) && !ReadyIn(t', p) {
      WaitingMore(t, t', p, kids);
    } else {
      WaitingSame(t, t', p, kids);
    }
  }

  lemma {:induction false} WaitingWithout(t: Nodes, kids: seq<Id>, c: Id)
    requires c in kids
    ensures Waiting(t, kids) == Waiting(t, Without(kids, c)) + if ReadyIn(t, c) then 0 else 1
  {
    if kids[0] == c {
      assert Without(kids, c) == kids[1..];
    } else {
      WaitingWithout(t, kids[1..], c);
      assert Without(kids, c) == [kids[0]] + Without(kids[1..], c);
    }
  }
}
