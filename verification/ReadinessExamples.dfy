/** Two ways in which a descriptor stays not ready although everything below it is. */
module ReadinessExamples {
  import opened LoaderProtocol
  import opened Readiness

  /** Everything is ready, but the descriptor does not know, and is in the list of no one who could tell it. */
  ghost predicate LeftBehind(t: Nodes, d: Id) {
    && d in t && t[d].status == Ready && !IsReady(t[d])
    && forall c :: c in t[d].children ==> ReadyIn(t, c)
  }

  function Three(a: Node, b: Node, c: Node): Nodes {
    map[0 := a, 1 := b, 2 := c]
  }

  const BARE: Node := Node(Ready, 0, [], [])

  /** Descriptors 1 and 2 without children, and 0 which is loading. */
  method ThreeBare() returns (r: Resources)
    ensures fresh(r) && r.Valid() && r.nodes == Three(Node(Loading, 0, [], []), BARE, BARE)
  {
    hide Mutual, Ranked, CountsRight;
    r := new Resources();
    r.Create(0, Loading);
    r.Create(1, Ready);
    r.Create(2, Ready);
  }

  /** The counts after `add_child` are the only right ones. */
  lemma AddedIs(l: Nodes, t: Nodes, x: Nodes, rank: map<Id, nat>, top: nat)
    requires SameButCounts(l, t) && SameButCounts(l, x) && Mutual(t) && Ranked(t, rank, top)
    requires CountsRight(t) && CountsRight(x)
    ensures t == x
  {
    hide Mutual, Ranked, CountsRight;
    SameLists(l, t);
    SameTrans(t, l, x);
    CountsAreDetermined(t, x, rank, top);
  }

  /** Two parents wait for one child. The older one removes it, and the child forgets the newer one; when it
      becomes ready nobody tells the newer one. */
  method NewerParentForgotten() returns (r: Resources)
    ensures LeftBehind(r.nodes, 2) && r.nodes[2].children == [0] && 0 in r.nodes && r.nodes[0].parents == []
  {
    hide Mutual, Ranked, CountsRight, SameButCounts, Linked, Unlinked;
    var rank, top := map[0 := 0, 1 := 1, 2 := 1], 1;
    r := ThreeBare();
    ghost var one := Three(Node(Loading, 0, [], [1]), Node(Ready, 1, [0], []), BARE);
    FirstLink(r.nodes, one, rank);
    r.AddChild(1, 0, rank, top);
    AddedIs(Linked(Three(Node(Loading, 0, [], []), BARE, BARE), 1, 0), r.nodes, one, rank, top);
    ghost var both := Three(Node(Loading, 0, [], [2, 1]), Node(Ready, 1, [0], []), Node(Ready, 1, [0], []));
    SecondLink(r.nodes, both, rank);
    r.AddChild(2, 0, rank, top);
    AddedIs(Linked(one, 2, 0), r.nodes, both, rank, top);
    r.RemoveChild(1, 0);
    OlderRemoves(both);
    assert r.nodes == Three(Node(Loading, 0, [], []), BARE, Node(Ready, 1, [0], []));
    r.ChangeState(0, Ready);
  }

  // at most one child each, and only with a smaller number

  lemma SameThree(a: Node, b: Node, c: Node, b': Node, c': Node)
    requires b' == b.(notReady := b'.notReady) && c' == c.(notReady := c'.notReady)
    ensures SameButCounts(Three(a, b, c), Three(a, b', c'))
  {
  }

  lemma RankedThree(a: Node, b: Node, c: Node, high: nat)
    requires a.children == [] && (b.children == [] || b.children == [0])
    requires c.children == [] || c.children == [0] || (c.children == [1] && high > 1)
    requires high >= 1
    ensures Ranked(Three(a, b, c), map[0 := 0, 1 := 1, 2 := high], high)
  {
  }

  /** How many of at most one child are not ready. */
  ghost predicate Waits(n: Node, a: Node, b: Node) {
    n.notReady == if n.children == [] || IsReady(if n.children == [0] then a else b) then 0 else 1
  }

  lemma CountsThree(a: Node, b: Node, c: Node)
    requires a.children == [] && a.notReady == 0
    requires (b.children == [] || b.children == [0]) && Waits(b, a, b)
    requires (c.children == [] || c.children == [0] || c.children == [1]) && Waits(c, a, b)
    ensures CountsRight(Three(a, b, c))
  {
    var t := Three(a, b, c);
    forall p | p in t
      ensures t[p].notReady == Waiting(t, t[p].children)
    {
      if t[p].children != [] {
        assert t[p].children[1..] == [];
        OneWaits(t, t[p].children[0]);
      }
    }
  }

  lemma OneWaits(t: Nodes, c: Id)
    ensures Waiting(t, [c]) == if ReadyIn(t, c) then 0 else 1
  {
    assert [c][1..] == [];
  }

  lemma FirstLink(t: Nodes, x: Nodes, rank: map<Id, nat>)
    requires t == Three(Node(Loading, 0, [], []), BARE, BARE) && rank == map[0 := 0, 1 := 1, 2 := 1]
    requires x == Three(Node(Loading, 0, [], [1]), Node(Ready, 1, [0], []), BARE)
    ensures Ranked(Linked(t, 1, 0), rank, 1) && SameButCounts(Linked(t, 1, 0), x) && CountsRight(x)
  {
    var a, b, c := Node(Loading, 0, [], [1]), Node(Ready, 0, [0], []), BARE;
    var b', c' := Node(Ready, 1, [0], []), BARE;
    FirstLinkIs(t);
    RankedThree(a, b, c, 1);
    SameThree(a, b, c, b', c');
    CountsThree(a, b', c');
    hide Linked, Ranked, SameButCounts, CountsRight, Three;
  }

  lemma FirstLinkIs(t: Nodes)
    requires t == Three(Node(Loading, 0, [], []), BARE, BARE)
    ensures Linked(t, 1, 0) == Three(Node(Loading, 0, [], [1]), Node(Ready, 0, [0], []), BARE)
  {
    assert [0] + t[1].children == [0] && [1] + t[0].parents == [1];
  }

  lemma SecondLink(t: Nodes, x: Nodes, rank: map<Id, nat>)
    requires t == Three(Node(Loading, 0, [], [1]), Node(Ready, 1, [0], []), BARE)
    requires rank == map[0 := 0, 1 := 1, 2 := 1]
    requires x == Three(Node(Loading, 0, [], [2, 1]), Node(Ready, 1, [0], []), Node(Ready, 1, [0], []))
    ensures Ranked(Linked(t, 2, 0), rank, 1) && SameButCounts(Linked(t, 2, 0), x) && CountsRight(x)
  {
    var a, b, c := Node(Loading, 0, [], [2, 1]), Node(Ready, 1, [0], []), Node(Ready, 0, [0], []);
    var b', c' := Node(Ready, 1, [0], []), Node(Ready, 1, [0], []);
    SecondLinkIs(t);
    RankedThree(a, b, c, 1);
    SameThree(a, b, c, b', c');
    CountsThree(a, b', c');
    hide Linked, Ranked, SameButCounts, CountsRight, Three;
  }

  lemma SecondLinkIs(t: Nodes)
    requires t == Three(Node(Loading, 0, [], [1]), Node(Ready, 1, [0], []), BARE)
    ensures Linked(t, 2, 0) == Three(Node(Loading, 0, [], [2, 1]), Node(Ready, 1, [0], []), Node(Ready, 0, [0], []))
  {
    assert [0] + t[2].children == [0] && [2] + t[0].parents == [2, 1];
  }

  lemma OlderRemoves(t: Nodes)
    requires t == Three(Node(Loading, 0, [], [2, 1]), Node(Ready, 1, [0], []), Node(Ready, 1, [0], []))
    ensures Unlinked(t, 1, 0) == Three(Node(Loading, 0, [], []), BARE, Node(Ready, 1, [0], []))
  {
    assert IndexOf([2, 1], 1) == 1 && Without([0], 0) == [];
  }

  /** A parent that loses its last child that was not ready becomes ready, and its own parent is not told. */
  method GrandparentNotTold() returns (r: Resources)
    ensures LeftBehind(r.nodes, 2) && r.nodes[2].children == [1]
  {
    hide Mutual, Ranked, CountsRight, SameButCounts, Linked, Unlinked;
    var rank, top := map[0 := 0, 1 := 1, 2 := 2], 2;
    r := ThreeBare();
    ghost var one := Three(Node(Loading, 0, [], []), Node(Ready, 0, [], [2]), Node(Ready, 0, [1], []));
    UpperLink(r.nodes, one, rank);
    r.AddChild(2, 1, rank, top);
    AddedIs(Linked(Three(Node(Loading, 0, [], []), BARE, BARE), 2, 1), r.nodes, one, rank, top);
    ghost var both := Three(Node(Loading, 0, [], [1]), Node(Ready, 1, [0], [2]), Node(Ready, 1, [1], []));
    LowerLink(r.nodes, both, rank);
    r.AddChild(1, 0, rank, top);
    AddedIs(Linked(one, 1, 0), r.nodes, both, rank, top);
    r.RemoveChild(1, 0);
    MiddleRemoves(both);
  }

  lemma UpperLink(t: Nodes, x: Nodes, rank: map<Id, nat>)
    requires t == Three(Node(Loading, 0, [], []), BARE, BARE) && rank == map[0 := 0, 1 := 1, 2 := 2]
    requires x == Three(Node(Loading, 0, [], []), Node(Ready, 0, [], [2]), Node(Ready, 0, [1], []))
    ensures Ranked(Linked(t, 2, 1), rank, 2) && SameButCounts(Linked(t, 2, 1), x) && CountsRight(x)
  {
    var a, b, c := Node(Loading, 0, [], []), Node(Ready, 0, [], [2]), Node(Ready, 0, [1], []);
    var b', c' := Node(Ready, 0, [], [2]), Node(Ready, 0, [1], []);
    UpperLinkIs(t);
    RankedThree(a, b, c, 2);
    SameThree(a, b, c, b', c');
    CountsThree(a, b', c');
    hide Linked, Ranked, SameButCounts, CountsRight, Three;
  }

  lemma UpperLinkIs(t: Nodes)
    requires t == Three(Node(Loading, 0, [], []), BARE, BARE)
    ensures Linked(t, 2, 1) == Three(Node(Loading, 0, [], []), Node(Ready, 0, [], [2]), Node(Ready, 0, [1], []))
  {
    assert [1] + t[2].children == [1] && [2] + t[1].parents == [2];
  }

  lemma LowerLink(t: Nodes, x: Nodes, rank: map<Id, nat>)
    requires t == Three(Node(Loading, 0, [], []), Node(Ready, 0, [], [2]), Node(Ready, 0, [1], []))
    requires rank == map[0 := 0, 1 := 1, 2 := 2]
    requires x == Three(Node(Loading, 0, [], [1]), Node(Ready, 1, [0], [2]), Node(Ready, 1, [1], []))
    ensures Ranked(Linked(t, 1, 0), rank, 2) && SameButCounts(Linked(t, 1, 0), x) && CountsRight(x)
  {
    var a, b, c := Node(Loading, 0, [], [1]), Node(Ready, 0, [0], [2]), Node(Ready, 0, [1], []);
    var b', c' := Node(Ready, 1, [0], [2]), Node(Ready, 1, [1], []);
    LowerLinkIs(t);
    RankedThree(a, b, c, 2);
    SameThree(a, b, c, b', c');
    CountsThree(a, b', c');
    hide Linked, Ranked, SameButCounts, CountsRight, Three;
  }

  lemma LowerLinkIs(t: Nodes)
    requires t == Three(Node(Loading, 0, [], []), Node(Ready, 0, [], [2]), Node(Ready, 0, [1], []))
    ensures Linked(t, 1, 0) == Three(Node(Loading, 0, [], [1]), Node(Ready, 0, [0], [2]), Node(Ready, 0, [1], []))
  {
    assert [0] + t[1].children == [0] && [1] + t[0].parents == [1];
  }

  lemma MiddleRemoves(t: Nodes)
    requires t == Three(Node(Loading, 0, [], [1]), Node(Ready, 1, [0], [2]), Node(Ready, 1, [1], []))
    ensures Unlinked(t, 1, 0) == Three(Node(Loading, 0, [], []), Node(Ready, 0, [], [2]), Node(Ready, 1, [1], []))
  {
    assert IndexOf([1], 1) == 0 && Without([0], 0) == [];
  }
}
