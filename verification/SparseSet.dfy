/** SparseSet: data kept without holes in a dense array, found through pages of positions that
    exist only while they hold something. */
module SparseSets {
  import opened Arith
  import opened Options

  /** `indices[o]` is a position in the dense array, or u32MAX. */
  datatype Page = Page(indices: seq<nat>, numElements: nat)
  datatype Entry<T> = Entry(data: T, index: nat)

  /** Occupied places of a page. */
  function Count(indices: seq<nat>): nat {
    if indices == [] then 0 else (if indices[0] != U32MAX then 1 else 0) + Count(indices[1..])
  }

  lemma {:induction false} CountUpdate(s: seq<nat>, o: nat, v: nat)
    requires o < |s|
    ensures Count(s[o := v]) + (if s[o] != U32MAX then 1 else 0) == Count(s) + (if v != U32MAX then 1 else 0)
    decreases o
  {
    if o > 0 {
      CountUpdate(s[1..], o - 1, v);
      assert s[o := v][1..] == s[1..][o - 1 := v];
    } else {
      assert s[0 := v][1..] == s[1..];
    }
  }

  lemma {:induction false} CountAll(s: seq<nat>)
    ensures Count(s) <= |s|
    ensures Count(s) == 0 <==> forall o :: 0 <= o < |s| ==> s[o] == U32MAX
    decreases |s|
  {
    if s != [] {
      CountAll(s[1..]);
      assert forall o :: 0 < o < |s| ==> s[o] == s[1..][o - 1];
      if Count(s) == 0 {
        forall o | 0 <= o < |s|
          ensures s[o] == U32MAX
        {
          if o > 0 { assert s[1..][o - 1] == U32MAX; }
        }
      }
    }
  }

  /** Page and place of an index, and back. */
  function PageOf(i: nat, per: nat): nat
    requires per > 0
  {
    i / per
  }

  function PlaceOf(i: nat, per: nat): (o: nat)
    requires per > 0
    ensures o < per
  {
    i % per
  }

  lemma SamePlace(i: nat, j: nat, per: nat)
    requires per > 0 && PageOf(i, per) == PageOf(j, per) && PlaceOf(i, per) == PlaceOf(j, per)
    ensures i == j
  {
    assert i == i / per * per + i % per && j == j / per * per + j % per;
  }

  /** The position recorded for an index; u32MAX when there is no page or no entry. */
  function Slot(pages: map<nat, Page>, per: nat, i: nat): nat
    requires per > 0
  {
    var p := PageOf(i, per);
    var o := PlaceOf(i, per);
    if p in pages && o < |pages[p].indices| then pages[p].indices[o] else U32MAX
  }

  /** A page exists exactly while it holds something, and knows how much. */
  ghost predicate PageOk(page: Page, per: nat) {
    |page.indices| == per && page.numElements == Count(page.indices) && page.numElements > 0
  }

  /** Pages and dense array point at each other. */
  ghost predicate Linked<T>(pages: map<nat, Page>, dense: seq<Entry<T>>, per: nat)
    requires per > 0
  {
    && (forall j :: 0 <= j < |dense| ==> Slot(pages, per, dense[j].index) == j)
    && (forall i: nat :: Slot(pages, per, i) != U32MAX ==>
          Slot(pages, per, i) < |dense| && dense[Slot(pages, per, i)].index == i)
  }

  /** The map the two structures stand for. */
  ghost predicate Holds<T>(pages: map<nat, Page>, dense: seq<Entry<T>>, per: nat, contents: map<nat, T>)
    requires per > 0
  {
    && (forall i: nat :: i in contents <==> Slot(pages, per, i) != U32MAX)
    && (forall i: nat :: i in contents && Slot(pages, per, i) < |dense| ==>
          contents[i] == dense[Slot(pages, per, i)].data)
  }

  ghost predicate PagesOk(pages: map<nat, Page>, per: nat) {
    forall p :: p in pages ==> PageOk(pages[p], per)
  }

  /** Writing one entry of a page. */
  lemma SlotWrite(pages: map<nat, Page>, per: nat, i: nat, v: nat, n: nat)
    requires per > 0 && PageOf(i, per) in pages && |pages[PageOf(i, per)].indices| == per
    ensures var p := PageOf(i, per);
            var pages' := pages[p := Page(pages[p].indices[PlaceOf(i, per) := v], n)];
            forall k: nat :: Slot(pages', per, k) == if k == i then v else Slot(pages, per, k)
  {
    var p := PageOf(i, per);
    var pages' := pages[p := Page(pages[p].indices[PlaceOf(i, per) := v], n)];
    forall k: nat
      ensures Slot(pages', per, k) == if k == i then v else Slot(pages, per, k)
    {
      if PageOf(k, per) == p && PlaceOf(k, per) == PlaceOf(i, per) {
        SamePlace(i, k, per);
      }
    }
  }

  /** A freshly made page changes no answer. */
  lemma SlotNewPage(pages: map<nat, Page>, per: nat, p: nat)
    requires per > 0 && p !in pages
    ensures forall k: nat :: Slot(pages[p := Page(seq(per, _ => U32MAX), 0)], per, k) == Slot(pages, per, k)
  {
  }

  /** Neither does dropping one with nothing in it. */
  lemma SlotDropPage(pages: map<nat, Page>, per: nat, p: nat)
    requires per > 0 && p in pages && Count(pages[p].indices) == 0
    ensures forall k: nat :: Slot(pages - {p}, per, k) == Slot(pages, per, k)
  {
    CountAll(pages[p].indices);
  }

  lemma CountFresh(per: nat)
    ensures Count(seq(per, _ => U32MAX)) == 0
  {
    CountAll(seq(per, _ => U32MAX));
  }

  /** A new entry at the end of the dense array. */
  lemma Added<T>(pages: map<nat, Page>, pages': map<nat, Page>, dense: seq<Entry<T>>, per: nat,
                 contents: map<nat, T>, i: nat, x: T)
    requires per > 0 && Linked(pages, dense, per) && Holds(pages, dense, per, contents)
    requires |dense| < U32MAX && Slot(pages, per, i) == U32MAX
    requires forall k: nat :: Slot(pages', per, k) == if k == i then |dense| else Slot(pages, per, k)
    ensures Linked(pages', dense + [Entry(x, i)], per) && Holds(pages', dense + [Entry(x, i)], per, contents[i := x])
  {
    hide Slot;
  }

  /** The dense array with entry `d` replaced by the last one. */
  function SwapOut<T>(dense: seq<Entry<T>>, d: nat): seq<Entry<T>>
    requires d < |dense|
  {
    var n := |dense| - 1;
    if d < n then dense[..n][d := dense[n]] else dense[..n]
  }

  /** Entry `d` removed, the last one moved into its place. */
  lemma Removed<T>(pages: map<nat, Page>, pages': map<nat, Page>, dense: seq<Entry<T>>, per: nat,
                   contents: map<nat, T>, i: nat)
    requires per > 0 && Linked(pages, dense, per) && Holds(pages, dense, per, contents)
    requires |dense| < U32MAX && Slot(pages, per, i) != U32MAX && i in contents
    requires var d := Slot(pages, per, i);
             var last := dense[|dense| - 1].index;
             forall k: nat :: Slot(pages', per, k) ==
               if k == i then U32MAX else if k == last then d else Slot(pages, per, k)
    ensures var d := Slot(pages, per, i);
            Linked(pages', SwapOut(dense, d), per) && Holds(pages', SwapOut(dense, d), per, contents - {i})
  {
    hide Slot;
    var d := Slot(pages, per, i);
    var n := |dense| - 1;
    assert Slot(pages, per, dense[n].index) == n && Slot(pages, per, dense[d].index) == d;
  }

  class SparseSet<T(0)> {
    const per: nat
    var pageList: map<nat, Page>
    var denseList: seq<Entry<T>>
    /** the finite map the set stands for */
    ghost var contents: map<nat, T>

    ghost predicate Valid()
      reads this
    {
      && per > 0 && |denseList| < U32MAX && PagesOk(pageList, per)
      && Linked(pageList, denseList, per) && Holds(pageList, denseList, per, contents)
    }

    constructor (numDataPerPage: nat)
      requires numDataPerPage > 0
      ensures Valid() && contents == map[] && per == numDataPerPage
    {
      per := numDataPerPage;
      pageList, denseList, contents := map[], [], map[];
    }

    /** Returns the place for the data of a new index, or nothing if the index is there. What the
        place holds until the caller writes to it is whatever was in memory. */
    method AddIfNotExists(dataIndex: nat, stale: T) returns (slot: Option<nat>)
      requires Valid() && |denseList| + 1 < U32MAX
      modifies this
      ensures Valid() && slot.None? == (dataIndex in old(contents))
      ensures contents == if slot.None? then old(contents) else old(contents)[dataIndex := stale]
      ensures slot.Some? ==> slot.value < |denseList| && denseList[slot.value] == Entry(stale, dataIndex)
      ensures slot.None? ==> pageList == old(pageList) && denseList == old(denseList)
    {
      hide Linked, Holds, PageOf, PlaceOf, Count;
      var pageIndex, offset := PageOf(dataIndex, per), PlaceOf(dataIndex, per);
      ghost var pages0 := pageList;
      SlotFits(pageList, denseList, per, contents, dataIndex);
      if pageIndex !in pageList {
        SlotNewPage(pageList, per, pageIndex);
        CountFresh(per);
        pageList := pageList[pageIndex := Page(seq(per, _ => U32MAX), 0)];
      }
      var page := pageList[pageIndex];
      if page.indices[offset] != U32MAX {
        return None;
      }
      var n := |denseList|;
      CountUpdate(page.indices, offset, n);
      SlotWrite(pageList, per, dataIndex, n, page.numElements + 1);
      pageList := pageList[pageIndex := Page(page.indices[offset := n], page.numElements + 1)];
      Added(pages0, pageList, denseList, per, contents, dataIndex, stale);
      denseList := denseList + [Entry(stale, dataIndex)];
      contents := contents[dataIndex := stale];
      slot := Some(n);
    }

    method Remove(dataIndex: nat)
      requires Valid()
      modifies this
      ensures Valid() && contents == old(contents) - {dataIndex}
      ensures dataIndex !in old(contents) ==> unchanged(this)
    {
      hide Linked, Holds, PageOf, PlaceOf, Count, SwapOut;
      var pageIndex, offset := PageOf(dataIndex, per), PlaceOf(dataIndex, per);
      SlotFits(pageList, denseList, per, contents, dataIndex);
      if pageIndex in pageList && pageList[pageIndex].indices[offset] != U32MAX {
        ghost var pages0, dense0 := pageList, denseList;
        var d := pageList[pageIndex].indices[offset];
        LastLinked(pages0, dense0, per, contents);
        denseList := SwapOut(denseList, d);
        PrivClear(dataIndex);
        SwapOutMeans(dense0, d);
        if |denseList| > d {
          PrivRepoint(denseList[d].index, d);
        }
        LastIsFirstGone(pages0, dense0, per, dataIndex);
        Removed(pages0, pageList, dense0, per, contents, dataIndex);
        contents := contents - {dataIndex};
      }
    }

    /** Forgets one index; its page goes if nothing is left in it. */
    method PrivClear(dataIndex: nat)
      requires per > 0 && PagesOk(pageList, per) && Slot(pageList, per, dataIndex) != U32MAX
      modifies this`pageList
      ensures PagesOk(pageList, per)
      ensures forall k: nat :: Slot(pageList, per, k) == if k == dataIndex then U32MAX else Slot(old(pageList), per, k)
    {
      hide PageOf, PlaceOf, Count;
      var pageIndex, offset := PageOf(dataIndex, per), PlaceOf(dataIndex, per);
      var page := pageList[pageIndex];
      CountUpdate(page.indices, offset, U32MAX);
      SlotWrite(pageList, per, dataIndex, U32MAX, page.numElements - 1);
      page := Page(page.indices[offset := U32MAX], page.numElements - 1);
      pageList := pageList[pageIndex := page];
      if page.numElements == 0 {
        SlotDropPage(pageList, per, pageIndex);
        pageList := pageList - {pageIndex};
      }
    }

    /** The moved entry gets its new position; its page is still there. */
    method PrivRepoint(swapped: nat, d: nat)
      requires per > 0 && PagesOk(pageList, per) && Slot(pageList, per, swapped) != U32MAX && d != U32MAX
      modifies this`pageList
      ensures PagesOk(pageList, per)
      ensures forall k: nat :: Slot(pageList, per, k) == if k == swapped then d else Slot(old(pageList), per, k)
    {
      hide PageOf, PlaceOf, Count;
      var pageIndex, offset := PageOf(swapped, per), PlaceOf(swapped, per);
      var page := pageList[pageIndex];
      CountUpdate(page.indices, offset, d);
      SlotWrite(pageList, per, swapped, d, page.numElements);
      pageList := pageList[pageIndex := Page(page.indices[offset := d], page.numElements)];
    }

    method Get(dataIndex: nat) returns (slot: Option<nat>)
      requires Valid()
      ensures slot.Some? == (dataIndex in contents)
      ensures slot.Some? ==> slot.value < |denseList| && denseList[slot.value] == Entry(contents[dataIndex], dataIndex)
    {
      hide PageOf, PlaceOf, Count;
      var pageIndex, offset := PageOf(dataIndex, per), PlaceOf(dataIndex, per);
      SlotFits(pageList, denseList, per, contents, dataIndex);
      if pageIndex in pageList && pageList[pageIndex].indices[offset] != U32MAX {
        return Some(pageList[pageIndex].indices[offset]);
      }
      slot := None;
    }

    /** Writing through the pointer a caller got. */
    method Write(slot: nat, data: T)
      requires Valid() && slot < |denseList|
      modifies this
      ensures Valid() && contents == old(contents)[old(denseList)[slot].index := data] && pageList == old(pageList)
    {
      hide Slot, PagesOk;
      var index := denseList[slot].index;
      denseList := denseList[slot := Entry(data, index)];
      contents := contents[index := data];
    }
  }

  lemma SlotFits<T>(pages: map<nat, Page>, dense: seq<Entry<T>>, per: nat, contents: map<nat, T>, i: nat)
    requires per > 0 && PagesOk(pages, per) && Linked(pages, dense, per) && Holds(pages, dense, per, contents)
    ensures i in contents <==> Slot(pages, per, i) != U32MAX
    ensures i in contents ==> Slot(pages, per, i) < |dense| && dense[Slot(pages, per, i)] == Entry(contents[i], i)
  {
    hide Slot;
  }

  lemma SwapOutMeans<T>(dense: seq<Entry<T>>, d: nat)
    requires d < |dense|
    ensures |SwapOut(dense, d)| == |dense| - 1
    ensures d < |dense| - 1 ==> SwapOut(dense, d)[d] == dense[|dense| - 1]
  {
  }

  lemma LastLinked<T>(pages: map<nat, Page>, dense: seq<Entry<T>>, per: nat, contents: map<nat, T>)
    requires per > 0 && Linked(pages, dense, per) && dense != []
    ensures Slot(pages, per, dense[|dense| - 1].index) == |dense| - 1
  {
    hide Slot;
  }

  lemma LastIsFirstGone<T>(pages: map<nat, Page>, dense: seq<Entry<T>>, per: nat, i: nat)
    requires per > 0 && Linked(pages, dense, per) && |dense| < U32MAX && Slot(pages, per, i) != U32MAX
    ensures Slot(pages, per, i) == |dense| - 1 <==> i == dense[|dense| - 1].index
  {
    hide Slot;
  }
}
