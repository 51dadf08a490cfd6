/** Which paths the reader answers although they name nothing, and what it answers then. */
module BlobPaths {
  import opened Arith
  import opened Options
  import opened Bytes
  import opened BlobTree
  import opened BlobWire

  /** Along the path every array comes with indices, and nothing follows a simple element. */
  predicate Proper(sibs: seq<Elem>, path: seq<Piece>)
    decreases |path|
  {
    path != [] && FindName(sibs, path[0].name).Some? ==>
      var e := sibs[FindName(sibs, path[0].name).value];
      && (e.Array? ==> path[0].idx != [])
      && (|path| > 1 ==> !e.Simple? && Proper(e.kids, path[1..]))
  }

  /** The path the reader takes instead: a component that selects a simple element is dropped when
      another one follows, and an array without indices stands for its first item. */
  function Normal(sibs: seq<Elem>, path: seq<Piece>): seq<Piece>
    decreases |path|
  {
    if path == [] || FindName(sibs, path[0].name).None? then path
    else
      var e := sibs[FindName(sibs, path[0].name).value];
      if e.Simple? && |path| > 1 then Normal(sibs, path[1..])
      else
        [Piece(path[0].name, if path[0].idx == [] then FirstItem(e) else path[0].idx)]
        + (if e.Simple? then [] else Normal(e.kids, path[1..]))
  }

  // ---------------------------------------------------------------- names that are not there

  /** What a search ends with. An element without a name has a null pointer for one, so comparing with it
      has no outcome the source defines. */
  datatype Outcome = At(offset: nat) | Refused | NullName

  /** What the reader tests of a component before it searches. */
  predicate Acceptable(piece: Piece) {
    piece.name != [] && forall k :: 0 <= k < |piece.idx| ==> piece.idx[k] < 65535
  }

  /** Where the search goes on after `sibs[i]` was accepted. */
  function Inside(sibs: seq<Elem>, i: nat): seq<Elem>
    requires i < |sibs|
  {
    if sibs[i].Simple? then sibs[i..] else sibs[i].kids
  }

  /** The search compares a component with an element that has no name. */
  predicate MeetsUnnamed(sibs: seq<Elem>, path: seq<Piece>)
    decreases |path|
  {
    && path != [] && Acceptable(path[0])
    && match FindName(sibs, path[0].name)
       case None => exists j :: 0 <= j < |sibs| && sibs[j].name == []
       case Some(i) =>
         || (exists j :: 0 <= j < i && sibs[j].name == [])
         || (|path| > 1 && IndexOffset(sibs[i], path[0].idx).Some? && MeetsUnnamed(Inside(sibs, i), path[1..]))
  }

  /** What a caller can tell beforehand: an acceptable component follows one that is accepted on a simple
      array. */
  predicate BelowSimpleArray(sibs: seq<Elem>, path: seq<Piece>)
    decreases |path|
  {
    && |path| > 1 && Acceptable(path[0])
    && match FindName(sibs, path[0].name)
       case None => false
       case Some(i) =>
         && IndexOffset(sibs[i], path[0].idx).Some?
         && if IsSimpleArray(sibs[i]) then Acceptable(path[1]) else BelowSimpleArray(Inside(sibs, i), path[1..])
  }

  /** The whole outcome of a search: that of `Lookup`, unless a missing name comes first. */
  function Answer(sibs: seq<Elem>, path: seq<Piece>, acc: nat): Outcome {
    if MeetsUnnamed(sibs, path) then NullName
    else
      match Lookup(sibs, path, acc)
      case None => Refused
      case Some(at) => At(at)
  }

  /** As long as only the items of simple arrays go without a name, those are the only ones met. */
  lemma {:induction false} UnnamedExactly(sibs: seq<Elem>, path: seq<Piece>)
    requires NamedAll(sibs)
    ensures MeetsUnnamed(sibs, path) <==> BelowSimpleArray(sibs, path)
    ensures MeetsUnnamed(sibs, path) ==> forall acc: nat :: Lookup(sibs, path, acc) == None
    decreases |path|
  {
    if |path| > 1 && FindName(sibs, path[0].name).Some? {
      var i := FindName(sibs, path[0].name).value;
      if IsSimpleArray(sibs[i]) {
        assert FindName(sibs[i].kids, path[1].name).Some? ==> path[1].name == [];
      } else {
        assert Named(sibs[i]);
        UnnamedExactly(Inside(sibs, i), path[1..]);
      }
    }
  }

  /** So a path that names an element meets none. */
  lemma AddressesNamed(sibs: seq<Elem>, path: seq<Piece>)
    requires FitsAll(sibs) && NamedAll(sibs) && Addresses(sibs, path)
    ensures !MeetsUnnamed(sibs, path)
  {
    hide Lookup, MeetsUnnamed, BelowSimpleArray, Addresses, NamedAll, FitsAll;
    AddressesAnswered(sibs, path, 0);
    UnnamedExactly(sibs, path);
  }

  // ---------------------------------------------------------------- which paths are answered

  /** A path that names an element is proper. */
  lemma {:induction false} AddressesProper(sibs: seq<Elem>, path: seq<Piece>)
    requires Addresses(sibs, path)
    ensures Proper(sibs, path)
    decreases |path|
  {
    if |path| > 1 {
      AddressesProper(Head(sibs, path).kids, path[1..]);
    }
  }

  /** A path that names an element is answered: no index is too large for the reader. */
  lemma {:induction false} AddressesAnswered(sibs: seq<Elem>, path: seq<Piece>, acc: nat)
    requires FitsAll(sibs) && Addresses(sibs, path)
    ensures Lookup(sibs, path, acc).Some?
    decreases |path|
  {
    var e := Head(sibs, path);
    assert Fits(e);
    if |path| > 1 {
      var o := IndexOffset(e, path[0].idx).value;
      AddressesAnswered(e.kids, path[1..], (acc + o) % 65536);
    }
  }

  lemma {:induction false} AnsweredAddresses(sibs: seq<Elem>, path: seq<Piece>, acc: nat)
    requires Lookup(sibs, path, acc).Some? && Proper(sibs, path)
    ensures Addresses(sibs, path)
    decreases |path|
  {
    var e := sibs[FindName(sibs, path[0].name).value];
    if |path| > 1 {
      var o := IndexOffset(e, path[0].idx).value;
      AnsweredAddresses(e.kids, path[1..], (acc + o) % 65536);
    }
  }

  /** The reader answers exactly the paths that name an element, as long as they are proper. */
  lemma AnswersExactly(sibs: seq<Elem>, path: seq<Piece>, acc: nat)
    requires FitsAll(sibs)
    ensures Addresses(sibs, path) <==> Lookup(sibs, path, acc).Some? && Proper(sibs, path)
  {
    hide Lookup, Proper, Addresses, FitsAll;
    if Addresses(sibs, path) {
      AddressesProper(sibs, path);
      AddressesAnswered(sibs, path, acc);
    }
    if Lookup(sibs, path, acc).Some? && Proper(sibs, path) {
      AnsweredAddresses(sibs, path, acc);
    }
  }

  // ---------------------------------------------------------------- what an improper path gets

  lemma {:induction false} FindIs(sibs: seq<Elem>, k: nat)
    requires NamedAll(sibs) && k < |sibs|
    ensures FindName(sibs, sibs[k].name) == Some(k)
  {
  }

  lemma FindLater(sibs: seq<Elem>, i: nat, name: seq<byte>)
    requires NamedAll(sibs) && i <= |sibs| && FindName(sibs[i..], name).Some?
    ensures FindName(sibs, name) == Some(i + FindName(sibs[i..], name).value)
  {
    FindIs(sibs, i + FindName(sibs[i..], name).value);
  }

  lemma {:induction false} FlatZero(idx: seq<nat>, dims: seq<nat>)
    requires |idx| == |dims| && idx != [] && forall k :: 0 <= k < |idx| ==> idx[k] == 0
    ensures Flat(idx, dims) == 0
  {
    if |idx| > 1 {
      FlatZero(idx[1..], dims[1..]);
    }
  }

  /** Without indices an array answers like its first item. */
  lemma FirstItemOffset(e: Elem)
    requires e.Array? && e.dims != [] && forall k :: 0 <= k < |e.dims| ==> 1 <= e.dims[k]
    ensures InRange(FirstItem(e), e.dims) && IndexOffset(e, FirstItem(e)) == Some(0)
  {
    FlatZero(FirstItem(e), e.dims);
  }

  /** The component that is kept: it addresses the element and adds the same offset. */
  lemma KeptComponent(e: Elem, idx: seq<nat>)
    requires Laid(e) && IndexOffset(e, idx).Some? && forall k :: 0 <= k < |idx| ==> idx[k] < 65535
    ensures var kept := if idx == [] then FirstItem(e) else idx;
            && IndexOffset(e, kept) == IndexOffset(e, idx)
            && (forall k :: 0 <= k < |kept| ==> kept[k] < 65535)
            && (if e.Array? then InRange(kept, e.dims) && kept != [] else kept == [])
  {
    if e.Array? { FirstItemOffset(e); }
  }

  /** The offset so far with the indices of one more component. */
  function Onward(acc: nat, e: Elem, idx: seq<nat>): nat
    requires IndexOffset(e, idx).Some?
  {
    (acc + IndexOffset(e, idx).value) % 65536
  }

  lemma LookupFirst(sibs: seq<Elem>, path: seq<Piece>, acc: nat)
    requires Lookup(sibs, path, acc).Some?
    ensures path != [] && path[0].name != [] && FindName(sibs, path[0].name).Some?
    ensures forall k :: 0 <= k < |path[0].idx| ==> path[0].idx[k] < 65535
    ensures var k := FindName(sibs, path[0].name).value;
            && IndexOffset(sibs[k], path[0].idx).Some?
            && var acc' := Onward(acc, sibs[k], path[0].idx);
               Lookup(sibs, path, acc) == if |path| == 1 then Some((sibs[k].off + acc') % 65536)
                                          else if sibs[k].Simple? then Lookup(sibs[k..], path[1..], acc')
                                          else Lookup(sibs[k].kids, path[1..], acc')
  {
  }

  /** One component in front of a path that names an element below, or of nothing. */
  lemma LookupFront(sibs: seq<Elem>, k: nat, idx: seq<nat>, rest: seq<Piece>, acc: nat)
    requires k < |sibs| && sibs[k].name != [] && FindName(sibs, sibs[k].name) == Some(k)
    requires IndexOffset(sibs[k], idx).Some? && forall i :: 0 <= i < |idx| ==> idx[i] < 65535
    requires if sibs[k].Array? then InRange(idx, sibs[k].dims) && idx != [] else idx == []
    requires rest == [] || (!sibs[k].Simple? && Addresses(sibs[k].kids, rest))
    ensures var path, acc' := [Piece(sibs[k].name, idx)] + rest, Onward(acc, sibs[k], idx);
            && Addresses(sibs, path)
            && Lookup(sibs, path, acc) == if rest == [] then Some((sibs[k].off + acc') % 65536)
                                          else Lookup(sibs[k].kids, rest, acc')
  {
    assert ([Piece(sibs[k].name, idx)] + rest)[1..] == rest;
  }

  lemma NormalFirst(sibs: seq<Elem>, k: nat, path: seq<Piece>)
    requires path != [] && k < |sibs| && FindName(sibs, path[0].name) == Some(k)
    ensures var e, idx := sibs[k], path[0].idx;
            Normal(sibs, path)
            == if e.Simple? && |path| > 1 then Normal(sibs, path[1..])
               else [Piece(e.name, if idx == [] then FirstItem(e) else idx)]
                    + (if |path| == 1 then [] else Normal(e.kids, path[1..]))
  {
  }

  /** Every answer, also to an improper path, is the answer to a path that names an element. */
  lemma {:induction false} AnswersAreElements(sibs: seq<Elem>, i: nat, path: seq<Piece>, start: nat, acc: nat)
    requires i <= |sibs| && NamedAll(sibs) && LaidAll(sibs, start) && acc <= 65535
    requires Lookup(sibs[i..], path, acc).Some?
    ensures Addresses(sibs, Normal(sibs, path))
    ensures Lookup(sibs, Normal(sibs, path), acc) == Lookup(sibs[i..], path, acc)
    decreases |path|
  {
    hide Lookup, FindName, Normal, Addresses, NamedAll, LaidAll, IndexOffset, FirstItem, Onward, Laid, Named, InRange;
    LookupFirst(sibs[i..], path, acc);
    FindLater(sibs, i, path[0].name);
    var j := FindName(sibs[i..], path[0].name).value;
    var e, idx := sibs[i + j], path[0].idx;
    NormalFirst(sibs, i + j, path);
    SiblingLaid(sibs, i + j, start);
    KeptComponent(e, idx);
    var acc' := Onward(acc, e, idx);
    OnwardFits(acc, e, idx, if idx == [] then FirstItem(e) else idx);
    if |path| > 1 && e.Simple? {
      SimpleAddsNothing(e, idx, acc);
      assert sibs[i..][j..] == sibs[i + j..];
      AnswersAreElements(sibs, i + j, path[1..], start, acc);
    } else if |path| > 1 {
      assert e.kids[0..] == e.kids;
      NamedInside(e, path[1..], acc');
      AnswersAreElements(e.kids, 0, path[1..], e.off, acc');
      LookupFront(sibs, i + j, if idx == [] then FirstItem(e) else idx, Normal(e.kids, path[1..]), acc);
      NotNothing(e.kids, Normal(e.kids, path[1..]));
    } else {
      LookupFront(sibs, i + j, if idx == [] then FirstItem(e) else idx, [], acc);
    }
  }

  lemma OnwardFits(acc: nat, e: Elem, idx: seq<nat>, kept: seq<nat>)
    requires IndexOffset(e, idx).Some? && IndexOffset(e, kept) == IndexOffset(e, idx)
    ensures Onward(acc, e, idx) <= 65535 && Onward(acc, e, kept) == Onward(acc, e, idx)
  {
  }

  lemma SiblingLaid(sibs: seq<Elem>, k: nat, start: nat)
    requires NamedAll(sibs) && LaidAll(sibs, start) && k < |sibs|
    ensures Laid(sibs[k]) && Named(sibs[k]) && sibs[k].name != []
    ensures !sibs[k].Simple? ==> LaidAll(sibs[k].kids, sibs[k].off)
  {
    EndOfGrows(sibs, start);
  }

  lemma SimpleAddsNothing(e: Elem, idx: seq<nat>, acc: nat)
    requires e.Simple? && IndexOffset(e, idx).Some? && acc <= 65535
    ensures Onward(acc, e, idx) == acc
  {
  }

  lemma NotNothing(sibs: seq<Elem>, path: seq<Piece>)
    requires Addresses(sibs, path)
    ensures path != []
  {
  }

  lemma NamedInside(e: Elem, path: seq<Piece>, acc: nat)
    requires Named(e) && !e.Simple? && Lookup(e.kids, path, acc).Some?
    ensures NamedAll(e.kids)
  {
  }

  /** The reader leaves a path as it is exactly when the path is proper. */
  lemma {:induction false} ProperIsKept(sibs: seq<Elem>, path: seq<Piece>)
    requires forall i :: 0 <= i < |sibs| ==> Laid(sibs[i])
    ensures Proper(sibs, path) <==> Normal(sibs, path) == path
    decreases |path|
  {
    if path != [] && FindName(sibs, path[0].name).Some? {
      var e := sibs[FindName(sibs, path[0].name).value];
      if e.Simple? && |path| > 1 {
        NormalNotLonger(sibs, path[1..]);
      } else if !e.Simple? {
        EndOfGrows(e.kids, e.off);
        ProperIsKept(e.kids, path[1..]);
        assert path == [path[0]] + path[1..];
      } else {
        assert path == [path[0]];
      }
    }
  }

  lemma {:induction false} NormalNotLonger(sibs: seq<Elem>, path: seq<Piece>)
    ensures |Normal(sibs, path)| <= |path|
    decreases |path|
  {
    if path != [] && FindName(sibs, path[0].name).Some? {
      var e := sibs[FindName(sibs, path[0].name).value];
      NormalNotLonger(sibs, path[1..]);
      if !e.Simple? { NormalNotLonger(e.kids, path[1..]); }
    }
  }
}
