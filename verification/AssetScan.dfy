/** Builder: the scan that drops from the database whatever a changed file invalidates, and the
    computation of the assets a build has updated. */
module AssetScan {
  import opened Options
  import opened DepGraph
  import opened AssetDb

  /** UIDs with the path of their file; the first path stays. */
  class HashedStringList {
    var items: map<Uid, string>

    constructor ()
      ensures items == map[]
    {
      items := map[];
    }

    method InsertIfNotExists(uid: Uid, path: string)
      modifies this
      ensures items == if uid in old(items) then old(items) else old(items)[uid := path]
    {
      if uid !in items {
        items := items[uid := path];
      }
    }
  }

  datatype Tables = Tables(res: map<Uid, Res>, assets: map<Uid, Asset>, aliases: set<(string, Uid)>, deps: Edges)

  /** What the other parts of the builder guarantee about the tables: every father has a row,
      and assets are declared by gosasset_d files. */
  ghost predicate Consistent(t: Tables) {
    && Acyclic(t.deps)
    && (forall u :: u in t.res ==> IsAResource(u))
    && (forall a :: a in t.assets ==> !IsAResource(a) && IsAnAsset(a) && IsGosassetD(t.assets[a].uidIni))
    && (forall e :: e in t.deps ==> e.0 in t.res || e.0 in t.assets)
  }

  /** The file system, taken as it is when the scan starts: modification time by path. */
  type Files = map<string, nat>

  predicate Changed(row: Res, files: Files) {
    row.path !in files || files[row.path] != row.lastTimeMod
  }

  ghost function ChangedIn(t: Tables, files: Files, rows: set<Uid>): set<Uid> {
    set u | u in rows && u in t.res && Changed(t.res[u], files)
  }

  predicate Exists(t: Tables, files: Files, u: Uid) {
    u in t.res && t.res[u].path in files
  }

  /** The tables after removing a set of resources and assets, edges included. */
  ghost predicate Left(ctx: DBContext, t: Tables, gone: set<Uid>)
    reads ctx
  {
    && ctx.res == t.res - gone && ctx.assets == t.assets - gone && ctx.deps == Without(t.deps, gone)
    && ctx.aliases == set a | a in t.aliases && !(a.1 in gone && IsGosassetD(a.1))
  }

  /** The signatures noted for some nodes, when `gone` has been removed: those of assets whose declaring
      file still has its row. */
  ghost function SignaturesOf(t: Tables, gone: set<Uid>, uids: set<Uid>): set<Uid> {
    set a | a in uids && a in t.assets && a !in gone && t.assets[a].uidIni in t.res && t.assets[a].uidIni !in gone
      :: t.assets[a].signature
  }

  /** The gosasset_d files noted for some nodes, when `gone` has been removed: themselves, and those that
      declare them and still have their row. */
  ghost function FilesOf(t: Tables, gone: set<Uid>, uids: set<Uid>): set<Uid> {
    (set u | u in uids && u in t.res && IsGosassetD(u))
    + set a | a in uids && a in t.assets && t.assets[a].uidIni in t.res && t.assets[a].uidIni !in gone
        :: t.assets[a].uidIni
  }

  /** The gosasset_d files a set of removed nodes calls for. */
  ghost predicate CallsFor(t: Tables, gone: set<Uid>, g: Uid) {
    (g in gone && IsGosassetD(g)) || exists a :: a in gone && a in t.assets && t.assets[a].uidIni == g
  }

  /** What the lists hold once the nodes of `seen` have been noted. */
  ghost predicate Noted(t: Tables, files: Files, before: map<Uid, string>, seen: set<Uid>,
                        rebuild: map<Uid, string>, deleted: set<Uid>, signatures: set<Uid>) {
    && (forall g :: g in deleted && Exists(t, files, g) ==> g in rebuild)
    && (forall g :: Exists(t, files, g) && CallsFor(t, seen, g) ==> g in rebuild)
    && (forall g :: g in rebuild ==> g in before || (g in t.res && CallsFor(t, seen, g) && rebuild[g] == t.res[g].path))
    && (forall a :: a in seen && a in t.assets && t.assets[a].uidIni in t.res && Reach(t.deps, a, t.assets[a].uidIni)
                    ==> t.assets[a].signature in signatures)
  }

  /** One more node noted: enough for everything it calls for to be there. */
  lemma NotedAdd(t: Tables, files: Files, before: map<Uid, string>, seen: set<Uid>, u: Uid,
                 rebuild: map<Uid, string>, deleted: set<Uid>, signatures: set<Uid>,
                 rebuild': map<Uid, string>, deleted': set<Uid>, signatures': set<Uid>)
    requires Noted(t, files, before, seen, rebuild, deleted, signatures)
    requires rebuild.Keys <= rebuild'.Keys && deleted <= deleted' && signatures <= signatures'
    requires forall g :: g in rebuild ==> rebuild'[g] == rebuild[g]
    requires forall g :: g in deleted' && g !in deleted && Exists(t, files, g) ==> g in rebuild'
    requires forall g :: g in rebuild' && g !in rebuild ==>
      g in t.res && CallsFor(t, seen + {u}, g) && rebuild'[g] == t.res[g].path
    requires Exists(t, files, u) && IsGosassetD(u) ==> u in rebuild'
    requires u in t.assets && Exists(t, files, t.assets[u].uidIni) ==> t.assets[u].uidIni in rebuild'
    requires u in t.assets && t.assets[u].uidIni in t.res && Reach(t.deps, u, t.assets[u].uidIni)
             ==> t.assets[u].signature in signatures'
    ensures Noted(t, files, before, seen + {u}, rebuild', deleted', signatures')
  {
    forall g | Exists(t, files, g) && CallsFor(t, seen + {u}, g)
      ensures g in rebuild'
    {
      if !CallsFor(t, seen, g) {
        assert g == u || (u in t.assets && t.assets[u].uidIni == g);
      }
    }
    forall g | g in rebuild && g !in before
      ensures CallsFor(t, seen + {u}, g)
    {
      assert CallsFor(t, seen, g);
    }
  }

  /** A file goes on the deleted list, and on the rebuild list unless it was on the deleted one. */
  ghost predicate Entered(g: Uid, path: string, rebuild: map<Uid, string>, deleted: set<Uid>,
                          rebuild': map<Uid, string>, deleted': set<Uid>) {
    && deleted' == deleted + {g}
    && rebuild' == if g in deleted || g in rebuild then rebuild else rebuild[g := path]
  }

  /** What noting one node does to the lists. */
  ghost predicate NotedBy(t: Tables, gone: set<Uid>, u: Uid, rebuild: map<Uid, string>, deleted: set<Uid>,
                          signatures: set<Uid>, rebuild': map<Uid, string>, deleted': set<Uid>, signatures': set<Uid>) {
    if u in t.res then
      && signatures' == signatures
      && if IsGosassetD(u) then Entered(u, t.res[u].path, rebuild, deleted, rebuild', deleted')
         else rebuild' == rebuild && deleted' == deleted
    else if u in t.assets && t.assets[u].uidIni in t.res && t.assets[u].uidIni !in gone then
      && signatures' == signatures + {t.assets[u].signature}
      && Entered(t.assets[u].uidIni, t.res[t.assets[u].uidIni].path, rebuild, deleted, rebuild', deleted')
    else rebuild' == rebuild && deleted' == deleted && signatures' == signatures
  }

  lemma OneNoted(t: Tables, files: Files, before: map<Uid, string>, gone: set<Uid>, seen: set<Uid>, u: Uid,
                 rebuild: map<Uid, string>, deleted: set<Uid>, signatures: set<Uid>,
                 rebuild': map<Uid, string>, deleted': set<Uid>, signatures': set<Uid>)
    requires Noted(t, files, before, seen, rebuild, deleted, signatures) && Consistent(t) && Upward(t.deps, gone)
    requires gone <= seen && u !in gone && (u in t.res || u in t.assets)
    requires NotedBy(t, gone, u, rebuild, deleted, signatures, rebuild', deleted', signatures')
    ensures Noted(t, files, before, seen + {u}, rebuild', deleted', signatures')
  {
    NotAnIni(t, u);
    hide Noted, Reach, Upward, Acyclic, Consistent, IsAResource, IsAnAsset;
    GuardMeans(t, files, before, seen, rebuild, deleted, signatures, u);
    if u in t.assets {
      GuardMeans(t, files, before, seen, rebuild, deleted, signatures, t.assets[u].uidIni);
      DroppedMeans(t, files, before, seen, rebuild, deleted, signatures, u, gone);
    }
    NotedAdd(t, files, before, seen, u, rebuild, deleted, signatures, rebuild', deleted', signatures');
  }

  /** What a row adds to the list of signatures when the rows of `done` have been scanned. */
  ghost function NewSignatures(t: Tables, files: Files, done: set<Uid>, u: Uid): set<Uid> {
    var gone := Closure(t.deps, ChangedIn(t, files, done));
    if u in t.res && Changed(t.res[u], files)
    then SignaturesOf(t, gone, Ancestors(Without(t.deps, gone), u)) else {}
  }

  /** A gosasset_d whose file is not there any more. */
  predicate Vanished(t: Tables, files: Files, u: Uid) {
    u in t.res && IsGosassetD(u) && t.res[u].path !in files
  }

  /** One whose file is there with another time. */
  predicate Modified(t: Tables, files: Files, u: Uid) {
    u in t.res && IsGosassetD(u) && t.res[u].path in files && files[t.res[u].path] != t.res[u].lastTimeMod
  }

  /** What a row adds to the list of deleted files. */
  ghost function NewDeleted(t: Tables, files: Files, done: set<Uid>, u: Uid): set<Uid> {
    var gone := Closure(t.deps, ChangedIn(t, files, done));
    if u in t.res && Changed(t.res[u], files) then
      (if Vanished(t, files, u) then {u} else {}) + FilesOf(t, gone, Ancestors(Without(t.deps, gone), u))
    else {}
  }

  /** What it adds to the list of files to rebuild, when `deleted` are on the other list. */
  ghost function NewRebuilt(t: Tables, files: Files, done: set<Uid>, u: Uid, deleted: set<Uid>): set<Uid> {
    var gone := Closure(t.deps, ChangedIn(t, files, done));
    if u in t.res && Changed(t.res[u], files) then
      (if Modified(t, files, u) then {u} else {})
      + (FilesOf(t, gone, Ancestors(Without(t.deps, gone), u))
         - (deleted + if Vanished(t, files, u) then {u} else {}))
    else {}
  }

  /** What it adds to the list of resources that may have become useless. */
  ghost function NewUseless(t: Tables, files: Files, done: set<Uid>, u: Uid): set<Uid> {
    var gone := Closure(t.deps, ChangedIn(t, files, done));
    if u in t.res && Changed(t.res[u], files) then Ancestors(Reverse(Without(t.deps, gone)), u) else {}
  }

  ghost function Rows(order: seq<Uid>): set<Uid> {
    set u | u in order
  }

  /** The signatures the scan lists when the rows come in this order. */
  ghost function Signatures(t: Tables, files: Files, order: seq<Uid>): set<Uid> {
    if order == [] then {}
    else
      var n := |order| - 1;
      Signatures(t, files, order[..n]) + NewSignatures(t, files, Rows(order[..n]), order[n])
  }

  ghost function Deleted(t: Tables, files: Files, order: seq<Uid>): set<Uid> {
    if order == [] then {}
    else
      var n := |order| - 1;
      Deleted(t, files, order[..n]) + NewDeleted(t, files, Rows(order[..n]), order[n])
  }

  ghost function Rebuilt(t: Tables, files: Files, order: seq<Uid>): set<Uid> {
    if order == [] then {}
    else
      var n := |order| - 1;
      Rebuilt(t, files, order[..n])
      + NewRebuilt(t, files, Rows(order[..n]), order[n], Deleted(t, files, order[..n]))
  }

  ghost function Useless(t: Tables, files: Files, order: seq<Uid>): set<Uid> {
    if order == [] then {}
    else
      var n := |order| - 1;
      Useless(t, files, order[..n]) + NewUseless(t, files, Rows(order[..n]), order[n])
  }

  /** The four lists the scan fills in, with the steps that fill them. */
  class ScanLists {
    var toRebuild: HashedStringList
    var deletedGosassetD: UidList
    var possibleSignatures: UidList
    var possibleResources: UidList

    constructor ()
      ensures fresh(toRebuild) && fresh(deletedGosassetD) && fresh(possibleSignatures) && fresh(possibleResources)
      ensures toRebuild.items == map[] && deletedGosassetD.items == {}
      ensures possibleSignatures.items == {} && possibleResources.items == {} && Separate()
    {
      toRebuild := new HashedStringList();
      deletedGosassetD := new UidList();
      possibleSignatures := new UidList();
      possibleResources := new UidList();
    }

    ghost predicate Separate()
      reads this
    {
      deletedGosassetD != possibleSignatures && deletedGosassetD != possibleResources
      && possibleSignatures != possibleResources
    }

    ghost predicate Lists(t: Tables, files: Files, before: map<Uid, string>, seen: set<Uid>)
      reads this, toRebuild, deletedGosassetD, possibleSignatures
    {
      Noted(t, files, before, seen, toRebuild.items, deletedGosassetD.items, possibleSignatures.items)
    }

    /** Notes what one node that is about to be deleted calls for. */
    method NoteOne(ctx: DBContext, uid: Uid, ghost t: Tables, ghost files: Files, ghost before: map<Uid, string>,
                   ghost gone: set<Uid>, ghost seen: set<Uid>)
      requires Separate() && Consistent(t) && Left(ctx, t, gone) && Upward(t.deps, gone) && gone <= seen
      requires uid !in gone && (uid in t.res || uid in t.assets) && Lists(t, files, before, seen)
      modifies toRebuild, deletedGosassetD, possibleSignatures
      ensures Lists(t, files, before, seen + {uid})
      ensures possibleSignatures.items == old(possibleSignatures.items) + SignaturesOf(t, gone, {uid})
      ensures deletedGosassetD.items == old(deletedGosassetD.items) + FilesOf(t, gone, {uid})
      ensures toRebuild.items.Keys
              == old(toRebuild.items).Keys + (FilesOf(t, gone, {uid}) - old(deletedGosassetD.items))
    {
      hide Noted, Reach, Upward, Acyclic, Consistent, Left, FilesOf, SignaturesOf, NotedBy;
      ghost var r, d, s := toRebuild.items, deletedGosassetD.items, possibleSignatures.items;
      PrivNote(ctx, uid, t, gone);
      OneNoted(t, files, before, gone, seen, uid, r, d, s, toRebuild.items, deletedGosassetD.items,
               possibleSignatures.items);
      NotedMeans(t, gone, uid, r, d, s, toRebuild.items, deletedGosassetD.items, possibleSignatures.items);
    }

    method PrivNote(ctx: DBContext, uid: Uid, ghost t: Tables, ghost gone: set<Uid>)
      requires Separate() && Consistent(t) && Left(ctx, t, gone) && uid !in gone && (uid in t.res || uid in t.assets)
      modifies toRebuild, deletedGosassetD, possibleSignatures
      ensures NotedBy(t, gone, uid, old(toRebuild.items), old(deletedGosassetD.items), old(possibleSignatures.items),
                      toRebuild.items, deletedGosassetD.items, possibleSignatures.items)
    {
      NotAnIni(t, uid);
      hide Acyclic, Consistent, IsAResource, IsAnAsset;
      if IsAResource(uid) {
        if IsGosassetD(uid) && uid in ctx.res {
          NoteGosassetD(uid, ctx.res[uid].path);
        }
      } else if IsAnAsset(uid) && uid in ctx.assets {
        var ini := ctx.assets[uid].uidIni;
        if ini in ctx.res {
          NoteAsset(ini, ctx.res[ini].path, ctx.assets[uid].signature);
        }
      }
    }

    method NoteGosassetD(uid: Uid, path: string)
      requires Separate()
      modifies toRebuild, deletedGosassetD
      ensures Entered(uid, path, old(toRebuild.items), old(deletedGosassetD.items),
                      toRebuild.items, deletedGosassetD.items)
    {
      var inserted := deletedGosassetD.InsertIfNotExists(uid);
      if inserted {
        toRebuild.InsertIfNotExists(uid, path);
      }
    }

    /** The file that declares an asset, and the asset's signature. */
    method NoteAsset(ini: Uid, path: string, signature: Uid)
      requires Separate()
      modifies toRebuild, deletedGosassetD, possibleSignatures
      ensures Entered(ini, path, old(toRebuild.items), old(deletedGosassetD.items),
                      toRebuild.items, deletedGosassetD.items)
      ensures possibleSignatures.items == old(possibleSignatures.items) + {signature}
    {
      NoteGosassetD(ini, path);
      var _ := possibleSignatures.InsertIfNotExists(signature);
    }

    /** Deletes a list of nodes from the tables. */
    method DeleteAll(ctx: DBContext, uids: set<Uid>, ghost t: Tables, ghost gone: set<Uid>)
      requires Consistent(t) && Left(ctx, t, gone) && forall u :: u in uids ==> u in t.res || u in t.assets
      modifies ctx
      ensures Left(ctx, t, gone + uids)
    {
      hide Acyclic;
      var todo := uids;
      ghost var done: set<Uid> := {};
      assert gone + {} == gone;
      while todo != {}
        invariant todo + done == uids && Left(ctx, t, gone + done)
      {
        var u :| u in todo;
        todo := todo - {u};
        DeleteOne(ctx, u, t, gone + done);
        assert gone + done + {u} == gone + (done + {u});
        done := done + {u};
      }
      assert done == uids;
    }

    method DeleteOne(ctx: DBContext, u: Uid, ghost t: Tables, ghost gone: set<Uid>)
      requires Consistent(t) && Left(ctx, t, gone) && (u in t.res || u in t.assets)
      modifies ctx
      ensures Left(ctx, t, gone + {u})
    {
      hide Acyclic, IsAResource, IsAnAsset;
      WithoutWithout(t.deps, gone, {u});
      NotAnIni(t, u);
      if IsAResource(u) {
        ctx.ResDelete(u);
      } else if IsAnAsset(u) {
        ctx.AssetDelete(u);
      }
    }

    /** A row whose file has changed takes everything above it out of the tables. */
    method ScanChanged(ctx: DBContext, u: Uid, ghost t: Tables, ghost files: Files, ghost before: map<Uid, string>,
                       ghost seeds: set<Uid>)
      requires Separate() && Consistent(t) && u in t.res && Left(ctx, t, Closure(t.deps, seeds))
      requires Lists(t, files, before, Closure(t.deps, seeds) + {u})
      modifies ctx, toRebuild, deletedGosassetD, possibleSignatures, possibleResources
      ensures Left(ctx, t, Closure(t.deps, seeds + {u}))
      ensures Lists(t, files, before, Closure(t.deps, seeds + {u}))
      ensures possibleSignatures.items
              == old(possibleSignatures.items) + SignaturesOf(t, Closure(t.deps, seeds), Ancestors(old(ctx.deps), u))
      ensures possibleResources.items == old(possibleResources.items) + Ancestors(Reverse(old(ctx.deps)), u)
      ensures var noted := FilesOf(t, Closure(t.deps, seeds), Ancestors(old(ctx.deps), u));
              && deletedGosassetD.items == old(deletedGosassetD.items) + noted
              && toRebuild.items.Keys == old(toRebuild.items).Keys + (noted - old(deletedGosassetD.items))
    {
      hide Noted, Closure, Ancestors, Acyclic, Consistent, Upward, FilesOf;
      ghost var gone := Closure(t.deps, seeds);
      ClosureUpward(t.deps, seeds);
      ClosureGrows(t.deps, seeds, u);
      LeftAcyclic(ctx, t, gone);
      AboveHaveRows(t, gone, u);
      var uidList := new UidList();
      ctx.DependencyGetRequireByList(u, true, uidList);
      assert uidList.items == Ancestors(old(ctx.deps), u);
      ghost var noted := FilesOf(t, gone, uidList.items);
      NoteAll(ctx, uidList.items, u, t, files, before, gone);
      ListAllDependencies(ctx, u);
      DeleteAll(ctx, uidList.items, t, gone);
      DeleteOne(ctx, u, t, gone + uidList.items);
      assert gone + uidList.items + {u} == gone + {u} + uidList.items == Closure(t.deps, seeds + {u});
    }

    method NoteAll(ctx: DBContext, uids: set<Uid>, ghost u: Uid, ghost t: Tables, ghost files: Files,
                   ghost before: map<Uid, string>, ghost gone: set<Uid>)
      requires Separate() && Consistent(t) && Left(ctx, t, gone) && Upward(t.deps, gone)
      requires forall x :: x in uids ==> x !in gone && (x in t.res || x in t.assets)
      requires Lists(t, files, before, gone + {u})
      modifies toRebuild, deletedGosassetD, possibleSignatures
      ensures Lists(t, files, before, gone + {u} + uids)
      ensures possibleSignatures.items == old(possibleSignatures.items) + SignaturesOf(t, gone, uids)
      ensures deletedGosassetD.items == old(deletedGosassetD.items) + FilesOf(t, gone, uids)
      ensures toRebuild.items.Keys
              == old(toRebuild.items).Keys + (FilesOf(t, gone, uids) - old(deletedGosassetD.items))
    {
      hide Noted, Acyclic, Consistent, Upward, SignaturesOf, FilesOf;
      var todo := uids;
      ghost var done: set<Uid> := {};
      assert gone + {u} + {} == gone + {u};
      NoSignatures(t, gone);
      NoFiles(t, gone);
      while todo != {}
        invariant todo + done == uids && Lists(t, files, before, gone + {u} + done)
        invariant possibleSignatures.items == old(possibleSignatures.items) + SignaturesOf(t, gone, done)
        invariant deletedGosassetD.items == old(deletedGosassetD.items) + FilesOf(t, gone, done)
        invariant toRebuild.items.Keys
                  == old(toRebuild.items).Keys + (FilesOf(t, gone, done) - old(deletedGosassetD.items))
      {
        var x :| x in todo;
        todo := todo - {x};
        NoteOne(ctx, x, t, files, before, gone, gone + {u} + done);
        MoreSignatures(t, gone, done, {x});
        MoreFiles(t, gone, done, {x});
        assert gone + {u} + done + {x} == gone + {u} + (done + {x});
        done := done + {x};
      }
      assert done == uids;
    }

    /** Everything the changed resource depends on may have become useless. */
    method ListAllDependencies(ctx: DBContext, u: Uid)
      requires Acyclic(ctx.deps)
      modifies possibleResources
      ensures possibleResources.items == old(possibleResources.items) + Ancestors(Reverse(ctx.deps), u)
    {
      hide Ancestors, Acyclic;
      assert Passing(ctx.deps, c => true) == ctx.deps;
      ctx.DependencyGetDependeciesList(u, false, possibleResources, c => true);
    }

    /** Looks at one row of the snapshot of the resource table. */
    method ScanRow(ctx: DBContext, u: Uid, row: Res, files: Files, ghost t: Tables, ghost before: map<Uid, string>,
                   ghost done: set<Uid>)
      requires Separate() && Consistent(t) && u in t.res && row == t.res[u]
      requires Left(ctx, t, Closure(t.deps, ChangedIn(t, files, done)))
      requires Lists(t, files, before, Closure(t.deps, ChangedIn(t, files, done)))
      modifies ctx, toRebuild, deletedGosassetD, possibleSignatures, possibleResources
      ensures Left(ctx, t, Closure(t.deps, ChangedIn(t, files, done + {u})))
      ensures Lists(t, files, before, Closure(t.deps, ChangedIn(t, files, done + {u})))
      ensures possibleSignatures.items == old(possibleSignatures.items) + NewSignatures(t, files, done, u)
      ensures possibleResources.items == old(possibleResources.items) + NewUseless(t, files, done, u)
      ensures deletedGosassetD.items == old(deletedGosassetD.items) + NewDeleted(t, files, done, u)
      ensures toRebuild.items.Keys
              == old(toRebuild.items).Keys + NewRebuilt(t, files, done, u, old(deletedGosassetD.items))
    {
      hide Noted, Closure, Ancestors, Acyclic, Consistent, FilesOf, Left;
      ghost var seeds := ChangedIn(t, files, done);
      ghost var gone := Closure(t.deps, seeds);
      ghost var r, d := toRebuild.items, deletedGosassetD.items;
      LeftDeps(ctx, t, gone);
      var changed := PrivCompare(u, row, files, t);
      if changed {
        assert ChangedIn(t, files, done + {u}) == seeds + {u};
        RowNoted(t, files, before, gone, r, d, possibleSignatures.items, toRebuild.items, deletedGosassetD.items, u);
        ScanChanged(ctx, u, t, files, before, seeds);
      } else {
        assert ChangedIn(t, files, done + {u}) == seeds && !Vanished(t, files, u) && !Modified(t, files, u);
        assert deletedGosassetD.items == d;
      }
    }

    /** Compares the row with its file. */
    method PrivCompare(u: Uid, row: Res, files: Files, ghost t: Tables) returns (changed: bool)
      requires u in t.res && row == t.res[u]
      modifies toRebuild, deletedGosassetD
      ensures changed == Changed(row, files)
      ensures deletedGosassetD.items == old(deletedGosassetD.items) + if Vanished(t, files, u) then {u} else {}
      ensures toRebuild.items == if Modified(t, files, u) && u !in old(toRebuild.items)
                                 then old(toRebuild.items)[u := row.path] else old(toRebuild.items)
    {
      hide IsGosassetD;
      changed := false;
      if row.path !in files {
        changed := true;
        if IsGosassetD(u) {
          var _ := deletedGosassetD.InsertIfNotExists(u);
        }
      } else if files[row.path] != row.lastTimeMod {
        changed := true;
        if IsGosassetD(u) {
          toRebuild.InsertIfNotExists(u, row.path);
        }
      }
    }

    /** The rows are those the query saw at the start, in any order, even if the loop has
        deleted some of them since. */
    method PrivResourceScanDB(ctx: DBContext, files: Files) returns (ghost order: seq<Uid>)
      requires Separate() && deletedGosassetD.items == {}
      requires Consistent(Tables(ctx.res, ctx.assets, ctx.aliases, ctx.deps))
      requires forall g :: g in toRebuild.items ==> g !in ctx.res
      modifies ctx, toRebuild, deletedGosassetD, possibleSignatures, possibleResources
      ensures var t := Tables(old(ctx.res), old(ctx.assets), old(ctx.aliases), old(ctx.deps));
              var removed := Closure(t.deps, ChangedIn(t, files, t.res.Keys));
              && Left(ctx, t, removed)
              && Lists(t, files, old(toRebuild.items), removed)
              && (forall g :: Exists(t, files, g) ==> (g in toRebuild.items <==> CallsFor(t, removed, g)))
              && Rows(order) == t.res.Keys && (forall i, j :: 0 <= i < j < |order| ==> order[i] != order[j])
              && possibleSignatures.items == old(possibleSignatures.items) + Signatures(t, files, order)
              && possibleResources.items == old(possibleResources.items) + Useless(t, files, order)
              && deletedGosassetD.items == Deleted(t, files, order)
              && toRebuild.items.Keys == old(toRebuild.items).Keys + Rebuilt(t, files, order)
      ensures forall u :: u in ctx.res <==>
                && u in old(ctx.res) && Fresh(old(ctx.res), files, u)
                && forall v :: v in old(ctx.res) && Reach(old(ctx.deps), u, v) ==> Fresh(old(ctx.res), files, v)
      ensures forall a :: a in ctx.assets <==>
                && a in old(ctx.assets)
                && forall v :: v in old(ctx.res) && Reach(old(ctx.deps), a, v) ==> Fresh(old(ctx.res), files, v)
    {
      hide Noted, Closure, Acyclic, Consistent, Left, Signatures, Useless, Deleted, Rebuilt, Reach, ChangedIn, Fresh;
      ghost var t := Tables(ctx.res, ctx.assets, ctx.aliases, ctx.deps);
      ghost var before := toRebuild.items;
      order := PrivScanRows(ctx, files, t);
      RebuildExact(t, files, before, Closure(t.deps, ChangedIn(t, files, t.res.Keys)), toRebuild.items,
                   deletedGosassetD.items, possibleSignatures.items);
      LeftMeans(ctx, t, files);
    }

    /** What the lists hold after the rows of `order`, from what they held before. */
    ghost predicate Scanned(t: Tables, files: Files, order: seq<Uid>, rebuild: set<Uid>, signatures: set<Uid>,
                            resources: set<Uid>)
      reads this, toRebuild, deletedGosassetD, possibleSignatures, possibleResources
    {
      && possibleSignatures.items == signatures + Signatures(t, files, order)
      && possibleResources.items == resources + Useless(t, files, order)
      && deletedGosassetD.items == Deleted(t, files, order)
      && toRebuild.items.Keys == rebuild + Rebuilt(t, files, order)
    }

    /** Row by row. */
    method PrivScanRows(ctx: DBContext, files: Files, ghost t: Tables) returns (ghost order: seq<Uid>)
      requires Separate() && deletedGosassetD.items == {}
      requires Consistent(t) && t == Tables(ctx.res, ctx.assets, ctx.aliases, ctx.deps)
      modifies ctx, toRebuild, deletedGosassetD, possibleSignatures, possibleResources
      ensures Left(ctx, t, Closure(t.deps, ChangedIn(t, files, t.res.Keys)))
      ensures Lists(t, files, old(toRebuild.items), Closure(t.deps, ChangedIn(t, files, t.res.Keys)))
      ensures Rows(order) == t.res.Keys && forall i, j :: 0 <= i < j < |order| ==> order[i] != order[j]
      ensures Scanned(t, files, order, old(toRebuild.items).Keys, old(possibleSignatures.items),
                      old(possibleResources.items))
    {
      NoRows(t, files);
      hide Noted, Closure, Acyclic, Consistent, Left, Rows, Separate, ChangedIn, Signatures, Useless, Deleted, Rebuilt;
      ghost var before, signatures, resources := toRebuild.items, possibleSignatures.items, possibleResources.items;
      var rows := ctx.res;
      var rst := rows.Keys;
      ghost var done: set<Uid> := {};
      NothingRemoved(ctx, t);
      NothingNoted(t, files, before, possibleSignatures.items);
      order := [];
      assert Scanned(t, files, order, before.Keys, signatures, resources);
      hide Scanned, Lists;
      while rst != {}
        invariant Separate() && rst + done == rows.Keys && rst !! done && t.res == rows && Rows(order) == done
        invariant forall i, j :: 0 <= i < j < |order| ==> order[i] != order[j]
        invariant Scanned(t, files, order, before.Keys, signatures, resources)
        invariant Left(ctx, t, Closure(t.deps, ChangedIn(t, files, done)))
        invariant Lists(t, files, before, Closure(t.deps, ChangedIn(t, files, done)))
      {
        var u :| u in rst;
        rst := rst - {u};
        NotInRows(order, u);
        PrivNextRow(ctx, u, rows[u], files, t, before, order, signatures, resources);
        order, done := order + [u], done + {u};
      }
      assert done == t.res.Keys;
    }

    method PrivNextRow(ctx: DBContext, u: Uid, row: Res, files: Files, ghost t: Tables, ghost before: map<Uid, string>,
                       ghost order: seq<Uid>, ghost signatures: set<Uid>, ghost resources: set<Uid>)
      requires Separate() && Consistent(t) && u in t.res && row == t.res[u]
      requires Left(ctx, t, Closure(t.deps, ChangedIn(t, files, Rows(order))))
      requires Lists(t, files, before, Closure(t.deps, ChangedIn(t, files, Rows(order))))
      requires Scanned(t, files, order, before.Keys, signatures, resources)
      modifies ctx, toRebuild, deletedGosassetD, possibleSignatures, possibleResources
      ensures Left(ctx, t, Closure(t.deps, ChangedIn(t, files, Rows(order + [u]))))
      ensures Lists(t, files, before, Closure(t.deps, ChangedIn(t, files, Rows(order + [u]))))
      ensures Scanned(t, files, order + [u], before.Keys, signatures, resources)
      ensures Rows(order + [u]) == Rows(order) + {u}
    {
      hide Noted, Closure, Acyclic, Consistent, Left, NewSignatures, NewUseless, NewDeleted, NewRebuilt;
      hide Signatures, Useless, Deleted, Rebuilt, ChangedIn, Rows;
      OneMoreRow(t, files, order, u);
      ScanRow(ctx, u, row, files, t, before, Rows(order));
    }
  }

  lemma NotInRows(order: seq<Uid>, u: Uid)
    requires u !in Rows(order)
    ensures forall i :: 0 <= i < |order| ==> order[i] != u
  {
  }

  lemma NoRows(t: Tables, files: Files)
    ensures Signatures(t, files, []) == Useless(t, files, []) == Deleted(t, files, []) == Rebuilt(t, files, []) == {}
    ensures Rows([]) == {} && ChangedIn(t, files, {}) == {}
  {
  }

  /** The file of the row is there, with the time that was recorded. */
  predicate Fresh(rows: map<Uid, Res>, files: Files, u: Uid) {
    u in rows && rows[u].path in files && files[rows[u].path] == rows[u].lastTimeMod
  }

  lemma LeftMeans(ctx: DBContext, t: Tables, files: Files)
    requires Consistent(t) && Left(ctx, t, Closure(t.deps, ChangedIn(t, files, t.res.Keys)))
    ensures forall u :: u in ctx.res <==>
              && u in t.res && Fresh(t.res, files, u)
              && forall v :: v in t.res && Reach(t.deps, u, v) ==> Fresh(t.res, files, v)
    ensures forall a :: a in ctx.assets <==>
              a in t.assets && forall v :: v in t.res && Reach(t.deps, a, v) ==> Fresh(t.res, files, v)
  {
    hide Reach, Closure, Acyclic, IsAResource, IsAnAsset, IsGosassetD;
    var seeds := ChangedIn(t, files, t.res.Keys);
    forall x
      ensures x in Closure(t.deps, seeds) <==>
              x in seeds || exists v :: v in t.res && Reach(t.deps, x, v) && !Fresh(t.res, files, v)
    {
      InClosure(t.deps, seeds, x);
    }
  }

  lemma FilesOfOne(t: Tables, gone: set<Uid>, u: Uid)
    requires Consistent(t)
    ensures FilesOf(t, gone, {u})
            == if u in t.res then if IsGosassetD(u) then {u} else {}
               else if u in t.assets && t.assets[u].uidIni in t.res && t.assets[u].uidIni !in gone
               then {t.assets[u].uidIni} else {}
  {
    NotAnIni(t, u);
    hide Acyclic, IsAResource, IsAnAsset, IsGosassetD;
  }

  lemma NotedMeans(t: Tables, gone: set<Uid>, u: Uid, rebuild: map<Uid, string>, deleted: set<Uid>,
                   signatures: set<Uid>, rebuild': map<Uid, string>, deleted': set<Uid>, signatures': set<Uid>)
    requires Consistent(t) && u !in gone && (u in t.res || u in t.assets)
    requires NotedBy(t, gone, u, rebuild, deleted, signatures, rebuild', deleted', signatures')
    ensures deleted' == deleted + FilesOf(t, gone, {u})
    ensures rebuild'.Keys == rebuild.Keys + (FilesOf(t, gone, {u}) - deleted)
    ensures signatures' == signatures + SignaturesOf(t, gone, {u})
  {
    NotAnIni(t, u);
    FilesOfOne(t, gone, u);
    hide FilesOf, Acyclic, Consistent, IsAResource, IsAnAsset, IsGosassetD;
  }

  lemma LeftDeps(ctx: DBContext, t: Tables, gone: set<Uid>)
    requires Left(ctx, t, gone)
    ensures ctx.deps == Without(t.deps, gone)
  {
  }

  lemma NoFiles(t: Tables, gone: set<Uid>)
    ensures FilesOf(t, gone, {}) == {}
  {
  }

  lemma MoreFiles(t: Tables, gone: set<Uid>, a: set<Uid>, b: set<Uid>)
    ensures FilesOf(t, gone, a + b) == FilesOf(t, gone, a) + FilesOf(t, gone, b)
  {
  }

  lemma OneMoreRow(t: Tables, files: Files, order: seq<Uid>, u: Uid)
    ensures Rows(order + [u]) == Rows(order) + {u}
    ensures Signatures(t, files, order + [u]) == Signatures(t, files, order) + NewSignatures(t, files, Rows(order), u)
    ensures Useless(t, files, order + [u]) == Useless(t, files, order) + NewUseless(t, files, Rows(order), u)
    ensures Deleted(t, files, order + [u]) == Deleted(t, files, order) + NewDeleted(t, files, Rows(order), u)
    ensures Rebuilt(t, files, order + [u])
            == Rebuilt(t, files, order) + NewRebuilt(t, files, Rows(order), u, Deleted(t, files, order))
  {
    assert (order + [u])[..|order|] == order;
  }

  lemma NoSignatures(t: Tables, gone: set<Uid>)
    ensures SignaturesOf(t, gone, {}) == {}
  {
  }

  lemma MoreSignatures(t: Tables, gone: set<Uid>, a: set<Uid>, b: set<Uid>)
    ensures SignaturesOf(t, gone, a + b) == SignaturesOf(t, gone, a) + SignaturesOf(t, gone, b)
  {
  }

  /** Aliases belong to gosasset_d files, never to assets. */
  lemma NotAnIni(t: Tables, u: Uid)
    requires Consistent(t)
    ensures u in t.res ==> IsAResource(u) && u !in t.assets
    ensures u in t.assets ==> !IsAResource(u) && IsAnAsset(u) && !IsGosassetD(u) && u !in t.res
  {
    hide Acyclic;
  }

  lemma LeftAcyclic(ctx: DBContext, t: Tables, gone: set<Uid>)
    requires Consistent(t) && Left(ctx, t, gone)
    ensures Acyclic(ctx.deps)
  {
    SubgraphAcyclic(ctx.deps, t.deps);
  }

  lemma AboveHaveRows(t: Tables, gone: set<Uid>, u: Uid)
    requires Consistent(t)
    ensures forall x :: x in Ancestors(Without(t.deps, gone), u) ==> x !in gone && (x in t.res || x in t.assets)
  {
    hide Acyclic;
  }

  lemma RowNoted(t: Tables, files: Files, before: map<Uid, string>, seen: set<Uid>,
                 rebuild: map<Uid, string>, deleted: set<Uid>, signatures: set<Uid>,
                 rebuild': map<Uid, string>, deleted': set<Uid>, u: Uid)
    requires Noted(t, files, before, seen, rebuild, deleted, signatures) && Consistent(t)
    requires u in t.res && Changed(t.res[u], files)
    requires deleted' == if IsGosassetD(u) && !Exists(t, files, u) then deleted + {u} else deleted
    requires rebuild' == if IsGosassetD(u) && Exists(t, files, u) && u !in rebuild
                         then rebuild[u := t.res[u].path] else rebuild
    ensures Noted(t, files, before, seen + {u}, rebuild', deleted', signatures)
  {
    hide Noted, Acyclic;
    NotAnIni(t, u);
    NotedAdd(t, files, before, seen, u, rebuild, deleted, signatures, rebuild', deleted', signatures);
  }

  lemma NothingRemoved(ctx: DBContext, t: Tables)
    requires t == Tables(ctx.res, ctx.assets, ctx.aliases, ctx.deps)
    ensures Closure(t.deps, {}) == {} && Left(ctx, t, {})
  {
  }

  lemma NothingNoted(t: Tables, files: Files, before: map<Uid, string>, signatures: set<Uid>)
    ensures Noted(t, files, before, {}, before, {}, signatures)
  {
  }

  lemma RebuildExact(t: Tables, files: Files, before: map<Uid, string>, removed: set<Uid>,
                     rebuild: map<Uid, string>, deleted: set<Uid>, signatures: set<Uid>)
    requires Noted(t, files, before, removed, rebuild, deleted, signatures)
    requires forall g :: g in before ==> g !in t.res
    ensures forall g :: Exists(t, files, g) ==> (g in rebuild <==> CallsFor(t, removed, g))
  {
    hide CallsFor;
  }

  /** Being in the list of deleted files means being in the list to rebuild, if the file is there. */
  lemma GuardMeans(t: Tables, files: Files, before: map<Uid, string>, seen: set<Uid>,
                   rebuild: map<Uid, string>, deleted: set<Uid>, signatures: set<Uid>, g: Uid)
    requires Noted(t, files, before, seen, rebuild, deleted, signatures)
    ensures g in deleted && Exists(t, files, g) ==> g in rebuild
  {
  }

  /** A declaring file whose row is already gone was noted when it went. */
  lemma DroppedMeans(t: Tables, files: Files, before: map<Uid, string>, seen: set<Uid>,
                     rebuild: map<Uid, string>, deleted: set<Uid>, signatures: set<Uid>, a: Uid, gone: set<Uid>)
    requires Noted(t, files, before, seen, rebuild, deleted, signatures)
    requires Consistent(t) && Upward(t.deps, gone) && gone <= seen && a in t.assets && a !in gone
    ensures var ini := t.assets[a].uidIni;
            && (ini in gone && Exists(t, files, ini) ==> ini in rebuild)
            && (ini in gone ==> !Reach(t.deps, a, ini))
  {
    var ini := t.assets[a].uidIni;
    if ini in gone {
      assert CallsFor(t, seen, ini);
      if Reach(t.deps, a, ini) {
        UpwardReach(t.deps, gone, a, ini);
      }
    }
  }

  // ---------------------------------------------------------------- updated assets

  /** The touched assets that are new or whose signature is not the one of the backup. */
  ghost function Renewed(touched: map<Uid, Uid>, backup: Option<map<Uid, Uid>>): set<Uid> {
    set a | a in touched && (backup.None? || a !in backup.value || backup.value[a] != touched[a])
  }

  /** Every asset that requires a member is a member. */
  ghost predicate UpwardAssets(deps: Edges, assets: set<Uid>) {
    forall x, y :: x in assets && IsAnAsset(y) && Reach(deps, y, x) ==> y in assets
  }

  /** The smallest set of assets that holds the seeds and every asset that requires a member. */
  ghost predicate IsLeastUpward(deps: Edges, seeds: set<Uid>, result: set<Uid>) {
    && seeds <= result && UpwardAssets(deps, result)
    && forall other: set<Uid> :: seeds <= other && UpwardAssets(deps, other) ==> result <= other
  }

  lemma SeedsAndAssetsAbove(deps: Edges, seeds: set<Uid>, result: set<Uid>)
    requires forall x :: x in result <==> x in seeds || (IsAnAsset(x) && exists s :: s in seeds && Reach(deps, x, s))
    ensures IsLeastUpward(deps, seeds, result)
  {
    hide Reach, IsAnAsset;
    forall x, y | x in result && IsAnAsset(y) && Reach(deps, y, x)
      ensures y in result
    {
      if x !in seeds {
        var s :| s in seeds && Reach(deps, x, s);
        ReachTrans(deps, y, x, s);
      }
    }
    forall other: set<Uid> | seeds <= other && UpwardAssets(deps, other)
      ensures result <= other
    {
    }
  }

  method UpdatedAssets(ctx: DBContext, touched: map<Uid, Uid>, backup: Option<map<Uid, Uid>>)
    returns (updated: set<Uid>)
    requires Acyclic(ctx.deps)
    ensures IsLeastUpward(ctx.deps, Renewed(touched, backup), updated)
    ensures forall x :: x in updated <==>
              exists s :: s in touched && (backup.Some? && s in backup.value ==> backup.value[s] != touched[s])
                          && (x == s || (IsAnAsset(x) && Reach(ctx.deps, x, s)))
  {
    hide Acyclic, Reach, IsLeastUpward, IsAnAsset, Ancestors;
    var todo := touched.Keys;
    ghost var done, seeds: set<Uid> := {}, {};
    updated := {};
    while todo != {}
      invariant todo + done == touched.Keys && seeds == Renewed(touched, backup) * done
      invariant forall x :: x in updated <==>
        x in seeds || (IsAnAsset(x) && exists s :: s in seeds && Reach(ctx.deps, x, s))
    {
      var assetUid :| assetUid in todo;
      todo := todo - {assetUid};
      done := done + {assetUid};
      var wasUpdated, foundInBackup := false, false;
      if backup.Some? && assetUid in backup.value {
        foundInBackup := true;
        if backup.value[assetUid] != touched[assetUid] {
          wasUpdated := true;
        }
      }
      if !foundInBackup {
        wasUpdated := true;
      }
      if wasUpdated {
        var before := updated;
        var above := AssetsAbove(ctx, assetUid);
        updated := updated + {assetUid} + above;
        AddSeed(ctx.deps, seeds, before, assetUid, above, updated);
        seeds := seeds + {assetUid};
      }
    }
    assert Renewed(touched, backup) * done == Renewed(touched, backup);
    SeedsAndAssetsAbove(ctx.deps, seeds, updated);
    assert forall s :: s in seeds <==>
        s in touched && (backup.Some? && s in backup.value ==> backup.value[s] != touched[s]);
  }

  /** The assets among what requires `uid`. */
  method AssetsAbove(ctx: DBContext, uid: Uid) returns (above: set<Uid>)
    requires Acyclic(ctx.deps)
    ensures forall x :: x in above <==> IsAnAsset(x) && Reach(ctx.deps, x, uid)
  {
    hide Acyclic, Reach, IsAnAsset, Ancestors;
    var list := new UidList();
    ctx.DependencyGetRequireByList(uid, true, list);
    above := set x | x in list.items && IsAnAsset(x);
    forall x
      ensures x in list.items <==> Reach(ctx.deps, x, uid)
    {
      InAncestors(ctx.deps, x, uid);
    }
  }

  lemma AddSeed(deps: Edges, seeds: set<Uid>, before: set<Uid>, u: Uid, above: set<Uid>, after: set<Uid>)
    requires forall x :: x in before <==> x in seeds || (IsAnAsset(x) && exists s :: s in seeds && Reach(deps, x, s))
    requires forall x :: x in above <==> IsAnAsset(x) && Reach(deps, x, u)
    requires after == before + {u} + above
    ensures forall x :: x in after <==>
      x in seeds + {u} || (IsAnAsset(x) && exists s :: s in seeds + {u} && Reach(deps, x, s))
  {
    hide Reach, IsAnAsset;
    forall x
      ensures (exists s :: s in seeds + {u} && Reach(deps, x, s)) <==>
              ((exists s :: s in seeds && Reach(deps, x, s)) || Reach(deps, x, u))
    {
      if s :| s in seeds && Reach(deps, x, s) {
        assert s in seeds + {u};
      }
      if Reach(deps, x, u) {
        assert u in seeds + {u};
      }
    }
  }
}
