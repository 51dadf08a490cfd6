/** Dependency edges (father, child) as a finite relation: reachability, acyclic graphs, and
    sets that contain the fathers of their members. */
module DepGraph {

  type Uid = nat
  type Edges = set<(Uid, Uid)>

  /** `a` reaches `b` through n + 1 edges. */
  ghost predicate ReachIn(deps: Edges, a: Uid, b: Uid, n: nat)
    decreases n
  {
    if n == 0 then (a, b) in deps
    else exists c :: (c, b) in deps && ReachIn(deps, a, c, n - 1)
  }

  /** `a` depends, directly or not, on `b`. */
  ghost predicate Reach(deps: Edges, a: Uid, b: Uid) {
    exists n: nat :: ReachIn(deps, a, b, n)
  }

  ghost predicate Acyclic(deps: Edges) {
    forall x :: !Reach(deps, x, x)
  }

  ghost function Fathers(deps: Edges): set<Uid> {
    set e | e in deps :: e.0
  }

  /** Everything that requires `b`, directly or not. */
  ghost function Ancestors(deps: Edges, b: Uid): set<Uid> {
    set a | a in Fathers(deps) && Reach(deps, a, b)
  }

  lemma ReachLast(deps: Edges, a: Uid, c: Uid, b: Uid)
    requires Reach(deps, a, c) && (c, b) in deps
    ensures Reach(deps, a, b)
  {
    var n: nat :| ReachIn(deps, a, c, n);
    assert ReachIn(deps, a, b, n + 1);
  }

  lemma ReachOne(deps: Edges, a: Uid, b: Uid)
    requires (a, b) in deps
    ensures Reach(deps, a, b)
  {
    assert ReachIn(deps, a, b, 0);
  }

  /** The last edge of a chain. */
  lemma ReachSplit(deps: Edges, a: Uid, b: Uid) returns (c: Uid)
    requires Reach(deps, a, b)
    ensures (c, b) in deps && (c == a || Reach(deps, a, c))
  {
    var n: nat :| ReachIn(deps, a, b, n);
    if n == 0 {
      c := a;
    } else {
      c :| (c, b) in deps && ReachIn(deps, a, c, n - 1);
    }
  }

  lemma {:induction false} ReachInFather(deps: Edges, a: Uid, b: Uid, n: nat)
    requires ReachIn(deps, a, b, n)
    ensures a in Fathers(deps)
    decreases n
  {
    if n == 0 {
      assert (a, b) in deps;
    } else {
      var c :| (c, b) in deps && ReachIn(deps, a, c, n - 1);
      ReachInFather(deps, a, c, n - 1);
    }
  }

  lemma InAncestors(deps: Edges, a: Uid, b: Uid)
    ensures a in Ancestors(deps, b) <==> Reach(deps, a, b)
  {
    if Reach(deps, a, b) {
      var n: nat :| ReachIn(deps, a, b, n);
      ReachInFather(deps, a, b, n);
    }
  }

  lemma {:induction false} ReachInTrans(deps: Edges, a: Uid, b: Uid, c: Uid, n: nat)
    requires Reach(deps, a, b) && ReachIn(deps, b, c, n)
    ensures Reach(deps, a, c)
    decreases n
  {
    if n == 0 {
      ReachLast(deps, a, b, c);
    } else {
      var d :| (d, c) in deps && ReachIn(deps, b, d, n - 1);
      ReachInTrans(deps, a, b, d, n - 1);
      ReachLast(deps, a, d, c);
    }
  }

  lemma ReachTrans(deps: Edges, a: Uid, b: Uid, c: Uid)
    requires Reach(deps, a, b) && Reach(deps, b, c)
    ensures Reach(deps, a, c)
  {
    var n: nat :| ReachIn(deps, b, c, n);
    ReachInTrans(deps, a, b, c, n);
  }

  lemma {:induction false} ReachInMono(deps: Edges, deps': Edges, a: Uid, b: Uid, n: nat)
    requires deps <= deps' && ReachIn(deps, a, b, n)
    ensures ReachIn(deps', a, b, n)
    decreases n
  {
    if n > 0 {
      var c :| (c, b) in deps && ReachIn(deps, a, c, n - 1);
      ReachInMono(deps, deps', a, c, n - 1);
    }
  }

  lemma ReachMono(deps: Edges, deps': Edges, a: Uid, b: Uid)
    requires deps <= deps' && Reach(deps, a, b)
    ensures Reach(deps', a, b)
  {
    var n: nat :| ReachIn(deps, a, b, n);
    ReachInMono(deps, deps', a, b, n);
  }

  lemma SubgraphAcyclic(deps: Edges, deps': Edges)
    requires deps <= deps' && Acyclic(deps')
    ensures Acyclic(deps)
  {
    forall x
      ensures !Reach(deps, x, x)
    {
      if Reach(deps, x, x) {
        ReachMono(deps, deps', x, x);
      }
    }
  }

  /** In an acyclic graph a father has strictly fewer ancestors: the recursions end. */
  lemma AncestorsShrink(deps: Edges, f: Uid, u: Uid)
    requires Acyclic(deps) && (f, u) in deps
    ensures Ancestors(deps, f) < Ancestors(deps, u)
  {
    forall a | a in Ancestors(deps, f)
      ensures a in Ancestors(deps, u)
    {
      InAncestors(deps, a, f);
      ReachLast(deps, a, f, u);
      InAncestors(deps, a, u);
    }
    ReachOne(deps, f, u);
    InAncestors(deps, f, u);
    InAncestors(deps, f, f);
  }

  // ---------------------------------------------------------------- looking down

  function Reverse(deps: Edges): Edges {
    set e | e in deps :: (e.1, e.0)
  }

  lemma {:induction false} ReverseReachIn(deps: Edges, a: Uid, b: Uid, n: nat)
    requires ReachIn(deps, a, b, n)
    ensures Reach(Reverse(deps), b, a)
    decreases n
  {
    if n == 0 {
      assert (b, a) in Reverse(deps) by { assert (a, b) in deps; }
      ReachOne(Reverse(deps), b, a);
    } else {
      var c :| (c, b) in deps && ReachIn(deps, a, c, n - 1);
      ReverseReachIn(deps, a, c, n - 1);
      assert (b, c) in Reverse(deps) by { assert (c, b) in deps; }
      ReachOne(Reverse(deps), b, c);
      ReachTrans(Reverse(deps), b, c, a);
    }
  }

  lemma ReverseTwice(deps: Edges)
    ensures Reverse(Reverse(deps)) == deps
  {
    forall e | e in deps
      ensures e in Reverse(Reverse(deps))
    {
      assert (e.1, e.0) in Reverse(deps);
    }
  }

  lemma ReverseReach(deps: Edges, a: Uid, b: Uid)
    ensures Reach(Reverse(deps), b, a) <==> Reach(deps, a, b)
  {
    if Reach(deps, a, b) {
      var n: nat :| ReachIn(deps, a, b, n);
      ReverseReachIn(deps, a, b, n);
    }
    if Reach(Reverse(deps), b, a) {
      var n: nat :| ReachIn(Reverse(deps), b, a, n);
      ReverseReachIn(Reverse(deps), b, a, n);
      ReverseTwice(deps);
    }
  }

  lemma ReverseAcyclic(deps: Edges)
    requires Acyclic(deps)
    ensures Acyclic(Reverse(deps))
  {
    forall x
      ensures !Reach(Reverse(deps), x, x)
    {
      ReverseReach(deps, x, x);
    }
  }

  // ---------------------------------------------------------------- removing nodes

  /** Contains the fathers of its members. */
  ghost predicate Upward(deps: Edges, nodes: set<Uid>) {
    forall f, c :: (f, c) in deps && c in nodes ==> f in nodes
  }

  /** The edges with neither end in `nodes`. */
  function Without(deps: Edges, nodes: set<Uid>): Edges {
    set e | e in deps && e.0 !in nodes && e.1 !in nodes
  }

  lemma {:induction false} UpwardReachIn(deps: Edges, nodes: set<Uid>, a: Uid, b: Uid, n: nat)
    requires Upward(deps, nodes) && ReachIn(deps, a, b, n)
    ensures b in nodes ==> a in nodes
    ensures a !in nodes ==> Reach(Without(deps, nodes), a, b)
    decreases n
  {
    if n == 0 {
      assert (a, b) in deps;
      if a !in nodes {
        ReachOne(Without(deps, nodes), a, b);
      }
    } else {
      var c :| (c, b) in deps && ReachIn(deps, a, c, n - 1);
      UpwardReachIn(deps, nodes, a, c, n - 1);
      if a !in nodes {
        ReachLast(Without(deps, nodes), a, c, b);
      }
    }
  }

  /** Removing an upward-closed set takes no ancestor away from what is left. */
  lemma UpwardReach(deps: Edges, nodes: set<Uid>, a: Uid, b: Uid)
    requires Upward(deps, nodes) && Reach(deps, a, b)
    ensures b in nodes ==> a in nodes
    ensures a !in nodes ==> Reach(Without(deps, nodes), a, b)
  {
    var n: nat :| ReachIn(deps, a, b, n);
    UpwardReachIn(deps, nodes, a, b, n);
  }

  /** A set of nodes together with all their ancestors. */
  ghost function Closure(deps: Edges, seeds: set<Uid>): set<Uid> {
    seeds + set a | a in Fathers(deps) && exists s :: s in seeds && Reach(deps, a, s)
  }

  lemma InClosure(deps: Edges, seeds: set<Uid>, a: Uid)
    ensures a in Closure(deps, seeds) <==> a in seeds || exists s :: s in seeds && Reach(deps, a, s)
  {
    if s :| s in seeds && Reach(deps, a, s) {
      InAncestors(deps, a, s);
    }
  }

  lemma ClosureUpward(deps: Edges, seeds: set<Uid>)
    ensures Upward(deps, Closure(deps, seeds))
  {
    forall f, c | (f, c) in deps && c in Closure(deps, seeds)
      ensures f in Closure(deps, seeds)
    {
      InClosure(deps, seeds, c);
      InClosure(deps, seeds, f);
      ReachOne(deps, f, c);
      if c !in seeds {
        var s :| s in seeds && Reach(deps, c, s);
        ReachTrans(deps, f, c, s);
      }
    }
  }

  /** Removing the closure of some seeds, then what is above one more seed in the graph that is
      left, removes the closure of all of them. */
  lemma ClosureGrows(deps: Edges, seeds: set<Uid>, u: Uid)
    ensures var gone := Closure(deps, seeds);
            Closure(deps, seeds + {u}) == gone + {u} + Ancestors(Without(deps, gone), u)
  {
    var gone := Closure(deps, seeds);
    var left := Without(deps, gone);
    ClosureUpward(deps, seeds);
    forall a
      ensures a in Closure(deps, seeds + {u}) <==> a in gone + {u} + Ancestors(left, u)
    {
      InClosure(deps, seeds, a);
      InClosure(deps, seeds + {u}, a);
      InAncestors(left, a, u);
      if Reach(deps, a, u) {
        UpwardReach(deps, gone, a, u);
        assert u in seeds + {u};
      }
      if Reach(left, a, u) {
        ReachMono(left, deps, a, u);
        assert u in seeds + {u};
      }
      if s :| s in seeds && Reach(deps, a, s) {
        assert s in seeds + {u};
      }
    }
  }

  lemma WithoutWithout(deps: Edges, a: set<Uid>, b: set<Uid>)
    ensures Without(Without(deps, a), b) == Without(deps, a + b)
  {
  }
}
