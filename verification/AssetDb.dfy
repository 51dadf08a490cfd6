/** The asset database: resources, assets, aliases and dependency edges, as tables. Rows come
    back from a query in no particular order. */
module AssetDb {
  import opened DepGraph

  /** The sixth byte of a UID names the type of a resource; the lowest bit of the eighth marks
      an asset; the seventh, without that mark, names a signature. */
  function ResourceType(uid: Uid): nat {
    uid / 0x100_0000_0000 % 256
  }

  predicate IsAResource(uid: Uid) {
    ResourceType(uid) != 0
  }

  predicate IsAnAsset(uid: Uid) {
    uid / 0x100_0000_0000_0000 % 2 == 1
  }

  /** eResType::gosasset_d */
  predicate IsGosassetD(uid: Uid) {
    ResourceType(uid) == 1
  }

  /** A UID from its bytes: a hash, an unused byte, the types of resource and asset, and the mark of assets. */
  lemma UidParts(hash: nat, unused: nat, resType: nat, assetType: nat, mark: nat)
    requires hash < 0x1_0000_0000 && unused < 256 && resType < 256 && assetType < 256 && mark < 2
    ensures var uid: Uid := hash + unused * 0x1_0000_0000 + resType * 0x100_0000_0000
                            + assetType * 0x1_0000_0000_0000 + mark * 0x100_0000_0000_0000;
            && ResourceType(uid) == resType && (IsAResource(uid) <==> resType != 0)
            && (IsGosassetD(uid) <==> resType == 1) && (IsAnAsset(uid) <==> mark == 1)
  {
  }

  datatype Res = Res(lastTimeMod: nat, path: string)
  datatype Asset = Asset(uidIni: Uid, signature: Uid)

  /** A list of distinct UIDs, filled in by the routines that receive it. */
  class UidList {
    var items: set<Uid>

    constructor ()
      ensures items == {}
    {
      items := {};
    }

    method Reset()
      modifies this
      ensures items == {}
    {
      items := {};
    }

    /** True when the UID was not there yet. */
    method InsertIfNotExists(uid: Uid) returns (inserted: bool)
      modifies this
      ensures inserted == (uid !in old(items)) && items == old(items) + {uid}
    {
      inserted := uid !in items;
      items := items + {uid};
    }
  }

  /** The edges whose lower end passes the filter. */
  function Passing(deps: Edges, filter: Uid -> bool): Edges {
    set e | e in deps && filter(e.1)
  }

  lemma ClosureAdd(deps: Edges, seeds: set<Uid>, f: Uid)
    ensures Closure(deps, seeds + {f}) == Closure(deps, seeds) + {f} + Ancestors(deps, f)
  {
    forall a
      ensures a in Closure(deps, seeds + {f}) <==> a in Closure(deps, seeds) + {f} + Ancestors(deps, f)
    {
      InClosure(deps, seeds, a);
      InClosure(deps, seeds + {f}, a);
      InAncestors(deps, a, f);
      if s :| s in seeds && Reach(deps, a, s) {
        assert s in seeds + {f};
      }
      if Reach(deps, a, f) {
        assert f in seeds + {f};
      }
    }
  }

  /** What requires `u` is its fathers and what requires them. */
  lemma AncestorsAreAboveFathers(deps: Edges, u: Uid, fathers: set<Uid>)
    requires forall f :: f in fathers <==> (f, u) in deps
    ensures Ancestors(deps, u) == Closure(deps, fathers)
  {
    forall a
      ensures a in Ancestors(deps, u) <==> a in Closure(deps, fathers)
    {
      InClosure(deps, fathers, a);
      InAncestors(deps, a, u);
      if Reach(deps, a, u) {
        var c := ReachSplit(deps, a, u);
      }
      if a in fathers {
        ReachOne(deps, a, u);
      }
      if s :| s in fathers && Reach(deps, a, s) {
        ReachLast(deps, a, s, u);
      }
    }
  }

  class DBContext {
    var res: map<Uid, Res>
    var assets: map<Uid, Asset>
    /** alias, with the gosasset_d that declares it */
    var aliases: set<(string, Uid)>
    var deps: Edges

    constructor (res: map<Uid, Res>, assets: map<Uid, Asset>, aliases: set<(string, Uid)>, deps: Edges)
      ensures this.res == res && this.assets == assets && this.aliases == aliases && this.deps == deps
    {
      this.res, this.assets, this.aliases, this.deps := res, assets, aliases, deps;
    }

    /** Father and child are the key of the table: inserting an edge that is there fails. */
    method DependencyAdd(father: Uid, child: Uid) returns (ok: bool)
      modifies this`deps
      ensures ok <==> (father, child) !in old(deps)
      ensures deps == old(deps) + {(father, child)}
    {
      ok := (father, child) !in deps;
      if ok {
        deps := deps + {(father, child)};
      }
    }

    /** Never fails, whether the edge is there or not. */
    method DependencyAddIfNotExists(father: Uid, child: Uid) returns (ok: bool)
      modifies this`deps
      ensures ok && deps == old(deps) + {(father, child)}
    {
      if (father, child) in deps {
        return true;
      }
      ok := DependencyAdd(father, child);
    }

    method ResDelete(uid: Uid)
      modifies this
      ensures res == old(res) - {uid} && assets == old(assets) && deps == Without(old(deps), {uid})
      ensures aliases == if IsGosassetD(uid) then set a | a in old(aliases) && a.1 != uid else old(aliases)
    {
      res := res - {uid};
      deps := set e | e in deps && !(e.0 == uid || e.1 == uid);
      if IsGosassetD(uid) {
        aliases := set a | a in aliases && a.1 != uid;
      }
    }

    method AssetDelete(uid: Uid)
      modifies this
      ensures assets == old(assets) - {uid} && res == old(res) && deps == Without(old(deps), {uid})
      ensures aliases == old(aliases)
    {
      assets := assets - {uid};
      deps := set e | e in deps && !(e.0 == uid || e.1 == uid);
    }

    /** Adds everything that requires `uid`. The recursion keeps no list of visited nodes; it
        ends because the graph is acyclic. */
    method DependencyGetRequireByList(uid: Uid, bClearListOnStart: bool, out: UidList)
      requires Acyclic(deps)
      modifies out
      ensures out.items == (if bClearListOnStart then {} else old(out.items)) + Ancestors(deps, uid)
      decreases Ancestors(deps, uid)
    {
      hide Ancestors, Closure, Acyclic;
      if bClearListOnStart {
        out.Reset();
      }
      ghost var base := out.items;
      var rst: set<Uid> := set e | e in deps && e.1 == uid :: e.0;
      ghost var fathers, done: set<Uid> := rst, {};
      ClosureNone(deps);
      while rst != {}
        invariant done + rst == fathers && done !! rst
        invariant out.items == base + Closure(deps, done)
      {
        var father :| father in rst;
        rst := rst - {father};
        var _ := out.InsertIfNotExists(father);
        AncestorsShrink(deps, father, uid);
        DependencyGetRequireByList(father, false, out);
        ClosureAdd(deps, done, father);
        done := done + {father};
      }
      AncestorsAreAboveFathers(deps, uid, fathers);
    }

    /** Adds everything `uid` depends on through nodes that all pass the filter. */
    method DependencyGetDependeciesList(uid: Uid, bClearListOnStart: bool, out: UidList, filter: Uid -> bool)
      requires Acyclic(deps)
      modifies out
      ensures var down := Reverse(Passing(deps, filter));
              out.items == (if bClearListOnStart then {} else old(out.items)) + Ancestors(down, uid)
      decreases Ancestors(Reverse(Passing(deps, filter)), uid)
    {
      hide Ancestors, Closure, Acyclic;
      ghost var down := Reverse(Passing(deps, filter));
      SubgraphAcyclic(Passing(deps, filter), deps);
      ReverseAcyclic(Passing(deps, filter));
      if bClearListOnStart {
        out.Reset();
      }
      ghost var base := out.items;
      var rows: set<Uid> := set e | e in deps && e.0 == uid :: e.1;
      ghost var children := set c | c in rows && filter(c);
      ChildrenAreFathersBelow(deps, filter, uid, children);
      var rst := rows;
      ghost var seen: set<Uid> := {};
      while rst != {}
        invariant rst <= rows && seen == children - rst
        invariant out.items == base + seen
      {
        var child :| child in rst;
        rst := rst - {child};
        if filter(child) {
          var _ := out.InsertIfNotExists(child);
          seen := seen + {child};
        }
      }
      rst := rows;
      ghost var done: set<Uid> := {};
      ClosureNone(down);
      while rst != {}
        invariant rst <= rows && done == children - rst
        invariant out.items == base + children + Closure(down, done)
      {
        var child :| child in rst;
        rst := rst - {child};
        if filter(child) {
          AncestorsShrink(down, child, uid);
          DependencyGetDependeciesList(child, false, out, filter);
          ClosureAdd(down, done, child);
          done := done + {child};
        }
      }
      assert done == children;
      ClosureHasSeeds(down, children);
      AncestorsAreAboveFathers(down, uid, children);
      assert out.items == base + Closure(down, children);
    }
  }

  lemma ClosureNone(deps: Edges)
    ensures Closure(deps, {}) == {}
  {
  }

  lemma ClosureHasSeeds(deps: Edges, seeds: set<Uid>)
    ensures seeds <= Closure(deps, seeds)
  {
  }

  lemma ChildrenAreFathersBelow(deps: Edges, filter: Uid -> bool, uid: Uid, children: set<Uid>)
    requires forall c :: c in children <==> (uid, c) in deps && filter(c)
    ensures forall c :: c in children <==> (c, uid) in Reverse(Passing(deps, filter))
  {
    forall c
      ensures c in children <==> (c, uid) in Reverse(Passing(deps, filter))
    {
      if c in children {
        assert (uid, c) in Passing(deps, filter);
      }
    }
  }

  /** What the filtered list holds: chains of dependencies on which every node passes. */
  lemma FilteredListMeaning(deps: Edges, filter: Uid -> bool, uid: Uid, c: Uid)
    ensures c in Ancestors(Reverse(Passing(deps, filter)), uid) <==> Reach(Passing(deps, filter), uid, c)
  {
    InAncestors(Reverse(Passing(deps, filter)), c, uid);
    ReverseReach(Passing(deps, filter), uid, c);
  }
}
