/** What the scan lists of signatures and of resources that may be useless, and how far that depends
    on the order of the rows. */
module ScanOrder {
  import opened Options
  import opened DepGraph
  import opened AssetDb
  import opened AssetScan

  ghost predicate ChangedRow(t: Tables, files: Files, u: Uid) {
    u in t.res && Changed(t.res[u], files)
  }

  /** A changed row among the first `i` took `x` out of the tables. */
  ghost predicate GoneBefore(t: Tables, files: Files, order: seq<Uid>, i: nat, x: Uid) {
    exists j :: 0 <= j < i && j < |order| && ChangedRow(t, files, order[j])
                && (order[j] == x || Reach(t.deps, x, order[j]))
  }

  lemma GoneIs(t: Tables, files: Files, order: seq<Uid>, i: nat, x: Uid)
    requires i <= |order|
    ensures x in Closure(t.deps, ChangedIn(t, files, Rows(order[..i]))) <==> GoneBefore(t, files, order, i, x)
  {
    hide Reach, Closure, Changed;
    var seeds := ChangedIn(t, files, Rows(order[..i]));
    InClosure(t.deps, seeds, x);
    if GoneBefore(t, files, order, i, x) {
      var j :| 0 <= j < i && ChangedRow(t, files, order[j]) && (order[j] == x || Reach(t.deps, x, order[j]));
      assert order[j] == order[..i][j];
      assert order[j] in seeds;
    }
    if x in seeds || exists s :: s in seeds && Reach(t.deps, x, s) {
      var s :| s in seeds && (x == s || Reach(t.deps, x, s));
      var j :| 0 <= j < i && order[..i][j] == s;
      assert order[j] == s && ChangedRow(t, files, order[j]);
    }
  }

  /** Without a set closed upward, what is below a node is there exactly when the node is. */
  lemma BelowWithout(deps: Edges, gone: set<Uid>, u: Uid, x: Uid)
    requires Upward(deps, gone)
    ensures Reach(Without(deps, gone), u, x) <==> u !in gone && Reach(deps, u, x)
  {
    if Reach(deps, u, x) { UpwardReach(deps, gone, u, x); }
    if Reach(Without(deps, gone), u, x) {
      ReachMono(Without(deps, gone), deps, u, x);
      ReachStarts(Without(deps, gone), u, x);
    }
  }

  lemma ReachStarts(deps: Edges, u: Uid, x: Uid)
    requires Reach(deps, u, x)
    ensures u in Fathers(deps)
  {
    InAncestors(deps, u, x);
  }

  /** Above it, when the upper end is there. */
  lemma AboveWithout(deps: Edges, gone: set<Uid>, u: Uid, a: Uid)
    requires Upward(deps, gone)
    ensures a in Ancestors(Without(deps, gone), u) <==> a !in gone && Reach(deps, a, u)
  {
    InAncestors(Without(deps, gone), a, u);
    BelowWithout(deps, gone, a, u);
  }

  // ---------------------------------------------------------------- resources that may be useless

  lemma NewUselessIs(t: Tables, files: Files, order: seq<Uid>, i: nat, x: Uid)
    requires i < |order|
    ensures x in NewUseless(t, files, Rows(order[..i]), order[i])
            <==> ListsUseless(t, files, order, i, x)
  {
    hide Reach, Closure, Ancestors, GoneBefore, Reverse, Without, Changed;
    var u := order[i];
    var seeds := ChangedIn(t, files, Rows(order[..i]));
    var gone := Closure(t.deps, seeds);
    ClosureUpward(t.deps, seeds);
    GoneIs(t, files, order, i, u);
    BelowWithout(t.deps, gone, u, x);
    ReverseReach(Without(t.deps, gone), u, x);
    InAncestors(Reverse(Without(t.deps, gone)), x, u);
  }

  /** A row that changed, below which `x` is, and which no earlier row took out of the tables. */
  ghost predicate ListsUseless(t: Tables, files: Files, order: seq<Uid>, i: nat, x: Uid)
    requires i < |order|
  {
    ChangedRow(t, files, order[i]) && Reach(t.deps, order[i], x) && !GoneBefore(t, files, order, i, order[i])
  }

  /** The list holds exactly what is below a changed row that was still there when its turn came. */
  lemma {:induction false} UselessMeans(t: Tables, files: Files, order: seq<Uid>, x: Uid)
    ensures x in Useless(t, files, order)
            <==> exists i :: 0 <= i < |order| && ListsUseless(t, files, order, i, x)
    decreases |order|
  {
    hide ChangedRow, Reach, GoneBefore, NewUseless;
    if order != [] {
      var n := |order| - 1;
      UselessMeans(t, files, order[..n], x);
      NewUselessIs(t, files, order, n, x);
      assert order == order[..n] + [order[n]];
      forall i | 0 <= i < n
        ensures ListsUseless(t, files, order[..n], i, x) <==> ListsUseless(t, files, order, i, x)
      {
        GonePrefix(t, files, order, n, i, order[i]);
      }
      hide ListsUseless;
      UselessSplit(t, files, order, x);
    }
  }

  lemma UselessSplit(t: Tables, files: Files, order: seq<Uid>, x: Uid)
    requires order != []
    requires forall i :: 0 <= i < |order| - 1 ==>
               (ListsUseless(t, files, order[..|order| - 1], i, x) <==> ListsUseless(t, files, order, i, x))
    ensures var n := |order| - 1;
            (exists i :: 0 <= i < |order| && ListsUseless(t, files, order, i, x))
            <==> (exists i :: 0 <= i < n && ListsUseless(t, files, order[..n], i, x))
                 || ListsUseless(t, files, order, n, x)
  {
    hide ListsUseless;
    var n := |order| - 1;
    if i :| 0 <= i < |order| && ListsUseless(t, files, order, i, x) {
      assert i < n ==> ListsUseless(t, files, order[..n], i, x);
    }
    if i :| 0 <= i < n && ListsUseless(t, files, order[..n], i, x) {
      assert ListsUseless(t, files, order, i, x);
    }
  }

  lemma GonePrefix(t: Tables, files: Files, order: seq<Uid>, n: nat, i: nat, x: Uid)
    requires i <= n <= |order|
    ensures GoneBefore(t, files, order[..n], i, x) <==> GoneBefore(t, files, order, i, x)
  {
    hide ChangedRow, Reach;
    if GoneBefore(t, files, order, i, x) {
      var j :| 0 <= j < i && ChangedRow(t, files, order[j]) && (order[j] == x || Reach(t.deps, x, order[j]));
      assert order[..n][j] == order[j];
    }
    if GoneBefore(t, files, order[..n], i, x) {
      var j :| 0 <= j < i && j < n && ChangedRow(t, files, order[..n][j])
               && (order[..n][j] == x || Reach(t.deps, x, order[..n][j]));
      assert order[..n][j] == order[j];
    }
  }

  // ---------------------------------------------------------------- signatures

  /** An asset taken out by row `i`, while the file that declares it still had its row. */
  ghost predicate ListsSignature(t: Tables, files: Files, order: seq<Uid>, i: nat, a: Uid)
    requires i < |order|
  {
    && a in t.assets && ChangedRow(t, files, order[i]) && Reach(t.deps, a, order[i])
    && !GoneBefore(t, files, order, i, a)
    && t.assets[a].uidIni in t.res && !GoneBefore(t, files, order, i, t.assets[a].uidIni)
  }

  lemma NewSignaturesIs(t: Tables, files: Files, order: seq<Uid>, i: nat, g: Uid)
    requires i < |order|
    ensures g in NewSignatures(t, files, Rows(order[..i]), order[i])
            <==> exists a :: a in t.assets && t.assets[a].signature == g && ListsSignature(t, files, order, i, a)
  {
    hide Reach, Closure, Ancestors, GoneBefore, Without, Changed;
    var u := order[i];
    var seeds := ChangedIn(t, files, Rows(order[..i]));
    var gone := Closure(t.deps, seeds);
    ClosureUpward(t.deps, seeds);
    forall a
      ensures a in gone <==> GoneBefore(t, files, order, i, a)
      ensures a in Ancestors(Without(t.deps, gone), u) <==> a !in gone && Reach(t.deps, a, u)
    {
      GoneIs(t, files, order, i, a);
      AboveWithout(t.deps, gone, u, a);
    }
  }

  /** The list holds exactly the signatures of assets that went while their declaring file was there. */
  lemma {:induction false} SignaturesMeans(t: Tables, files: Files, order: seq<Uid>, g: Uid)
    ensures g in Signatures(t, files, order)
            <==> exists i, a :: 0 <= i < |order| && a in t.assets && t.assets[a].signature == g
                                && ListsSignature(t, files, order, i, a)
    decreases |order|
  {
    hide ChangedRow, Reach, GoneBefore, NewSignatures;
    if order != [] {
      var n := |order| - 1;
      SignaturesMeans(t, files, order[..n], g);
      NewSignaturesIs(t, files, order, n, g);
      assert order == order[..n] + [order[n]];
      forall i, a | 0 <= i < n && a in t.assets
        ensures ListsSignature(t, files, order[..n], i, a) <==> ListsSignature(t, files, order, i, a)
      {
        GonePrefix(t, files, order, n, i, a);
        GonePrefix(t, files, order, n, i, t.assets[a].uidIni);
      }
      hide ListsSignature;
      SignaturesSplit(t, files, order, g);
    }
  }

  lemma SignaturesSplit(t: Tables, files: Files, order: seq<Uid>, g: Uid)
    requires order != []
    requires forall i, a :: 0 <= i < |order| - 1 && a in t.assets ==>
               (ListsSignature(t, files, order[..|order| - 1], i, a) <==> ListsSignature(t, files, order, i, a))
    ensures var n := |order| - 1;
            (exists i, a :: 0 <= i < |order| && a in t.assets && t.assets[a].signature == g
                            && ListsSignature(t, files, order, i, a))
            <==> (exists i, a :: 0 <= i < n && a in t.assets && t.assets[a].signature == g
                                 && ListsSignature(t, files, order[..n], i, a))
                 || (exists a :: a in t.assets && t.assets[a].signature == g && ListsSignature(t, files, order, n, a))
  {
    hide ListsSignature;
    var n := |order| - 1;
    if i, a :| 0 <= i < |order| && a in t.assets && t.assets[a].signature == g
               && ListsSignature(t, files, order, i, a) {
      assert i < n ==> ListsSignature(t, files, order[..n], i, a);
    }
    if i, a :| 0 <= i < n && a in t.assets && t.assets[a].signature == g && ListsSignature(t, files, order[..n], i, a) {
      assert ListsSignature(t, files, order, i, a);
    }
  }

  // ---------------------------------------------------------------- deleted files, and files to rebuild

  /** Row `i` notes a gosasset_d: it requires the row, or declares an asset that does, and neither was taken
      out before. */
  ghost predicate NotesFile(t: Tables, files: Files, order: seq<Uid>, i: nat, g: Uid)
    requires i < |order|
  {
    || (g in t.res && IsGosassetD(g) && ChangedRow(t, files, order[i]) && Reach(t.deps, g, order[i])
        && !GoneBefore(t, files, order, i, g))
    || exists a :: a in t.assets && t.assets[a].uidIni == g && ListsSignature(t, files, order, i, a)
  }

  /** The row of a gosasset_d whose file is not there has been looked at, up to row `i`. */
  ghost predicate VanishedBy(t: Tables, files: Files, order: seq<Uid>, i: nat, g: Uid) {
    Vanished(t, files, g) && exists j :: 0 <= j <= i && j < |order| && order[j] == g
  }

  lemma NotedFiles(t: Tables, files: Files, order: seq<Uid>, i: nat, g: Uid)
    requires i < |order|
    ensures var gone := Closure(t.deps, ChangedIn(t, files, Rows(order[..i])));
            NotesFile(t, files, order, i, g)
            <==> ChangedRow(t, files, order[i]) && g in FilesOf(t, gone, Ancestors(Without(t.deps, gone), order[i]))
  {
    hide Reach, Closure, Ancestors, GoneBefore, Without, Changed;
    var u := order[i];
    var seeds := ChangedIn(t, files, Rows(order[..i]));
    var gone := Closure(t.deps, seeds);
    ClosureUpward(t.deps, seeds);
    forall a
      ensures a in gone <==> GoneBefore(t, files, order, i, a)
      ensures a in Ancestors(Without(t.deps, gone), u) <==> a !in gone && Reach(t.deps, a, u)
    {
      GoneIs(t, files, order, i, a);
      AboveWithout(t.deps, gone, u, a);
    }
  }

  lemma NotesPrefix(t: Tables, files: Files, order: seq<Uid>, n: nat, i: nat, g: Uid)
    requires i < n <= |order|
    ensures NotesFile(t, files, order[..n], i, g) <==> NotesFile(t, files, order, i, g)
    ensures VanishedBy(t, files, order[..n], i, g) <==> VanishedBy(t, files, order, i, g)
  {
    hide ChangedRow, Reach, GoneBefore;
    GonePrefix(t, files, order, n, i, g);
    forall a | a in t.assets
      ensures ListsSignature(t, files, order[..n], i, a) <==> ListsSignature(t, files, order, i, a)
    {
      GonePrefix(t, files, order, n, i, a);
      GonePrefix(t, files, order, n, i, t.assets[a].uidIni);
    }
    hide ListsSignature;
    if VanishedBy(t, files, order, i, g) {
      var j :| 0 <= j <= i && j < |order| && order[j] == g;
      assert order[..n][j] == g;
    }
  }

  /** The list of deleted files holds the gosasset_d rows without a file, and whatever was noted. */
  lemma {:induction false} DeletedMeans(t: Tables, files: Files, order: seq<Uid>, g: Uid)
    ensures g in Deleted(t, files, order)
            <==> (g in order && g in t.res && IsGosassetD(g) && t.res[g].path !in files)
                 || exists i :: 0 <= i < |order| && NotesFile(t, files, order, i, g)
    decreases |order|
  {
    hide NotesFile, FilesOf, Closure, Ancestors, IsGosassetD, ChangedIn;
    if order != [] {
      var n := |order| - 1;
      DeletedMeans(t, files, order[..n], g);
      NotedFiles(t, files, order, n, g);
      assert order == order[..n] + [order[n]];
      forall i | 0 <= i < n
        ensures NotesFile(t, files, order[..n], i, g) <==> NotesFile(t, files, order, i, g)
      {
        NotesPrefix(t, files, order, n, i, g);
      }
      NotedSplit(t, files, order, g);
    }
  }

  lemma NotedSplit(t: Tables, files: Files, order: seq<Uid>, g: Uid)
    requires order != []
    requires forall i :: 0 <= i < |order| - 1 ==>
               (NotesFile(t, files, order[..|order| - 1], i, g) <==> NotesFile(t, files, order, i, g))
    ensures var n := |order| - 1;
            (exists i :: 0 <= i < |order| && NotesFile(t, files, order, i, g))
            <==> (exists i :: 0 <= i < n && NotesFile(t, files, order[..n], i, g)) || NotesFile(t, files, order, n, g)
  {
    hide NotesFile;
    var n := |order| - 1;
    if i :| 0 <= i < |order| && NotesFile(t, files, order, i, g) {
      assert i < n ==> NotesFile(t, files, order[..n], i, g);
    }
    if i :| 0 <= i < n && NotesFile(t, files, order[..n], i, g) {
      assert NotesFile(t, files, order, i, g);
    }
  }

  /** Noted by some row while its own row, if its file is not there, had not been looked at. */
  ghost predicate NotedInTime(t: Tables, files: Files, order: seq<Uid>, n: nat, g: Uid)
    requires n <= |order|
  {
    exists i :: 0 <= i < n && NotesFile(t, files, order, i, g) && !VanishedBy(t, files, order, i, g)
  }

  /** The list of files to rebuild holds the gosasset_d rows with another time, and whatever was noted in time. */
  lemma {:induction false} RebuiltMeans(t: Tables, files: Files, order: seq<Uid>, g: Uid)
    ensures g in Rebuilt(t, files, order)
            <==> (g in order && g in t.res && IsGosassetD(g) && t.res[g].path in files
                  && files[t.res[g].path] != t.res[g].lastTimeMod)
                 || NotedInTime(t, files, order, |order|, g)
    decreases |order|
  {
    hide NotesFile, FilesOf, Closure, Ancestors, IsGosassetD, ChangedIn, NotedInTime;
    if order != [] {
      var n := |order| - 1;
      RebuiltMeans(t, files, order[..n], g);
      DeletedMeans(t, files, order[..n], g);
      NotedFiles(t, files, order, n, g);
      assert order == order[..n] + [order[n]];
      InTimeSplit(t, files, order, g);
      VanishedSplit(t, files, order, g);
      LaterInTime(t, files, order, g);
      hide VanishedBy;
    } else {
      assert !NotedInTime(t, files, order, 0, g) by { NoneInTime(t, files, order, g); }
    }
  }

  lemma NoneInTime(t: Tables, files: Files, order: seq<Uid>, g: Uid)
    ensures !NotedInTime(t, files, order, 0, g)
  {
  }

  lemma InTimeSplit(t: Tables, files: Files, order: seq<Uid>, g: Uid)
    requires order != []
    ensures var n := |order| - 1;
            NotedInTime(t, files, order, |order|, g)
            <==> NotedInTime(t, files, order[..n], n, g)
                 || (NotesFile(t, files, order, n, g) && !VanishedBy(t, files, order, n, g))
  {
    hide NotesFile, VanishedBy;
    var n := |order| - 1;
    forall i | 0 <= i < n
      ensures NotesFile(t, files, order[..n], i, g) <==> NotesFile(t, files, order, i, g)
      ensures VanishedBy(t, files, order[..n], i, g) <==> VanishedBy(t, files, order, i, g)
    {
      NotesPrefix(t, files, order, n, i, g);
    }
    if i :| 0 <= i < |order| && NotesFile(t, files, order, i, g) && !VanishedBy(t, files, order, i, g) {
      assert i < n ==> NotesFile(t, files, order[..n], i, g) && !VanishedBy(t, files, order[..n], i, g);
    }
    if i :| 0 <= i < n && NotesFile(t, files, order[..n], i, g) && !VanishedBy(t, files, order[..n], i, g) {
      assert NotesFile(t, files, order, i, g) && !VanishedBy(t, files, order, i, g);
    }
  }

  lemma VanishedSplit(t: Tables, files: Files, order: seq<Uid>, g: Uid)
    requires order != []
    ensures var n := |order| - 1;
            VanishedBy(t, files, order, n, g) <==> Vanished(t, files, g) && (g in order[..n] || order[n] == g)
  {
    hide Vanished;
    var n := |order| - 1;
    if g in order[..n] {
      var j :| 0 <= j < n && order[..n][j] == g;
      assert order[j] == g;
    }
  }

  /** If the last row comes in time, so did every earlier one. */
  lemma LaterInTime(t: Tables, files: Files, order: seq<Uid>, g: Uid)
    requires order != []
    ensures var n := |order| - 1;
            !VanishedBy(t, files, order, n, g) && (exists i :: 0 <= i < n && NotesFile(t, files, order[..n], i, g))
            ==> NotedInTime(t, files, order[..n], n, g)
  {
    hide NotesFile, Vanished;
    var n := |order| - 1;
    if !VanishedBy(t, files, order, n, g) {
      if i :| 0 <= i < n && NotesFile(t, files, order[..n], i, g) {
        assert forall j :: 0 <= j <= i ==> order[..n][j] == order[j];
        assert !VanishedBy(t, files, order[..n], i, g);
      }
    }
  }

  /** A gosasset_d without a file is to be rebuilt all the same exactly when a row in front of its own notes
      it. */
  lemma VanishedRebuilt(t: Tables, files: Files, order: seq<Uid>, k: nat, g: Uid)
    requires k < |order| && order[k] == g && forall i, j :: 0 <= i < j < |order| ==> order[i] != order[j]
    requires g in t.res && IsGosassetD(g) && t.res[g].path !in files
    ensures g in Deleted(t, files, order)
    ensures g in Rebuilt(t, files, order) <==> exists i :: 0 <= i < k && NotesFile(t, files, order, i, g)
  {
    hide Rebuilt, Deleted, NotesFile, IsGosassetD;
    DeletedMeans(t, files, order, g);
    RebuiltMeans(t, files, order, g);
    forall i | 0 <= i < |order|
      ensures VanishedBy(t, files, order, i, g) <==> k <= i
    {
    }
    hide VanishedBy;
  }
}
