/** Small definitions that show where the reader and the flag of simple arrays surprise. */
module BlobExamples {
  import opened Arith
  import opened Options
  import opened Bytes
  import opened BlobTree
  import opened BlobPaths
  import opened BlobWire
  import opened BlobReader

  /** What the reader asks of a definition. */
  ghost predicate Finished(roots: seq<Elem>) {
    WellBuilt(roots) && NamedAll(roots) && FullAll(roots)
  }

  /** The path is answered with a position although it names nothing. */
  ghost predicate AnsweredAnyway(roots: seq<Elem>, path: seq<Piece>, at: nat) {
    Answer(roots, path, 0) == At(at) && !Addresses(roots, path) && !Proper(roots, path)
  }

  // ---------------------------------------------------------------- paths that name nothing

  // 71 is the format of one float
  const TWO_SIMPLE: seq<Elem> := [Simple([97], 0, 0, 71, 4), Simple([98], 4, 0, 71, 4)]
  const ONE_ARRAY: seq<Elem> := [Array([97], 0, 0, [3], [Simple([], 0, 0, 71, 4)])]

  /** `a.b` is answered with the position of `b`, although `a` has no members. */
  lemma AfterSimple()
    ensures Finished(TWO_SIMPLE) && AnsweredAnyway(TWO_SIMPLE, [Piece([97], []), Piece([98], [])], 4)
  {
    TwoSimpleBuilt();
    hide Finished;
  }

  lemma TwoSimpleBuilt()
    ensures Finished(TWO_SIMPLE)
  {
    TwoSimpleLaid();
    TwoSimpleWire();
    TwoSimpleFull();
    TwoSimpleLen();
    hide LaidAll, WireAll, LenAll, EndOf, NamedAll, FullAll;
  }

  lemma TwoSimpleLaid()
    ensures LaidAll(TWO_SIMPLE, 0) && EndOf(TWO_SIMPLE, 0) == 8
  {
    var one := [Simple([97], 0, 0, 71, 4)];
    assert TWO_SIMPLE[..1] == one;
    assert one[..0] == [] && LaidAll([], 0);
  }

  lemma TwoSimpleWire()
    ensures WireAll(TWO_SIMPLE)
  {
    forall i | 0 <= i < |TWO_SIMPLE|
      ensures Wire(TWO_SIMPLE[i])
    {
      var e := TWO_SIMPLE[i];
      assert e.Simple? && SizeOf(e) == 4 && |e.name| == 1;
    }
  }

  lemma TwoSimpleFull()
    ensures NamedAll(TWO_SIMPLE) && FullAll(TWO_SIMPLE)
  {
    assert TWO_SIMPLE[0].name[0] != TWO_SIMPLE[1].name[0];
  }

  lemma TwoSimpleLen()
    ensures LenAll(TWO_SIMPLE) == 32
  {
    assert TWO_SIMPLE[1..] == [TWO_SIMPLE[1]];
    assert LenAll([TWO_SIMPLE[1]]) == 16;
  }

  /** An array without brackets is answered with the position of its first item. */
  lemma WithoutBrackets()
    ensures Finished(ONE_ARRAY) && AnsweredAnyway(ONE_ARRAY, [Piece([97], [])], 0)
  {
    OneArrayBuilt();
    hide Finished;
  }

  lemma OneArrayBuilt()
    ensures Finished(ONE_ARRAY)
  {
    OneArrayLaid();
    OneArrayWire();
    OneArrayLen();
    OneArrayFull();
    hide LaidAll, WireAll, LenAll, EndOf, NamedAll, FullAll;
  }

  lemma OneArrayLaid()
    ensures LaidAll(ONE_ARRAY, 0) && EndOf(ONE_ARRAY, 0) == 12
  {
  }

  lemma OneArraySizes()
    ensures SizeOf(ONE_ARRAY[0]) == 12 && Stride(ONE_ARRAY[0]) == 4 && Wire(ONE_ARRAY[0].kids[0])
  {
    OneArrayLaid();
  }

  lemma OneArrayWire()
    ensures WireAll(ONE_ARRAY)
  {
    OneArraySizes();
    hide SizeOf, Stride;
    assert Wire(ONE_ARRAY[0]);
  }

  lemma OneArrayLen()
    ensures LenAll(ONE_ARRAY) == 40
  {
  }

  lemma OneArrayFull()
    ensures NamedAll(ONE_ARRAY) && FullAll(ONE_ARRAY)
  {
  }

  // ---------------------------------------------------------------- names that are not there

  /** `a[0].x` and `a.x` compare `x` with the missing name of the item. */
  lemma BelowItem()
    ensures Finished(ONE_ARRAY)
    ensures Answer(ONE_ARRAY, [Piece([97], [0]), Piece([120], [])], 0) == NullName
    ensures Answer(ONE_ARRAY, [Piece([97], []), Piece([120], [])], 0) == NullName
  {
    OneArrayBuilt();
    hide Finished;
    ItemMet([0]);
    ItemMet([]);
  }

  lemma ItemMet(idx: seq<nat>)
    requires Acceptable(Piece([97], idx)) && IndexOffset(ONE_ARRAY[0], idx).Some?
    ensures MeetsUnnamed(ONE_ARRAY, [Piece([97], idx), Piece([120], [])])
  {
    var path := [Piece([97], idx), Piece([120], [])];
    assert path[1..] == [Piece([120], [])];
    assert ONE_ARRAY[0].kids[0].name == [];
  }

  const NAMELESS_FIRST: seq<Elem> := [Simple([], 0, 0, 71, 4), Simple([98], 4, 0, 71, 4)]

  /** With an element that goes without a name and is not the item of a simple array, even a path that
      names an element may meet it: `b`, after a simple element without a name. */
  lemma BehindNameless()
    ensures WellBuilt(NAMELESS_FIRST) && FullAll(NAMELESS_FIRST) && !NamedAll(NAMELESS_FIRST)
    ensures Addresses(NAMELESS_FIRST, [Piece([98], [])]) && Proper(NAMELESS_FIRST, [Piece([98], [])])
    ensures Answer(NAMELESS_FIRST, [Piece([98], [])], 0) == NullName
  {
    NamelessBuilt();
    hide WellBuilt;
    assert NAMELESS_FIRST[0].name == [];
  }

  lemma NamelessBuilt()
    ensures WellBuilt(NAMELESS_FIRST)
  {
    NamelessLaid();
    NamelessWire();
    NamelessLen();
    hide LaidAll, WireAll, LenAll, EndOf;
  }

  lemma NamelessLaid()
    ensures LaidAll(NAMELESS_FIRST, 0) && EndOf(NAMELESS_FIRST, 0) == 8
  {
    var one := [Simple([], 0, 0, 71, 4)];
    assert NAMELESS_FIRST[..1] == one;
    assert one[..0] == [] && LaidAll([], 0);
  }

  lemma NamelessWire()
    ensures WireAll(NAMELESS_FIRST)
  {
    forall i | 0 <= i < |NAMELESS_FIRST|
      ensures Wire(NAMELESS_FIRST[i])
    {
      var e := NAMELESS_FIRST[i];
      assert e.Simple? && SizeOf(e) == 4 && |e.name| <= 1;
    }
  }

  lemma NamelessLen()
    ensures LenAll(NAMELESS_FIRST) == 32
  {
    assert NAMELESS_FIRST[1..] == [NAMELESS_FIRST[1]];
    assert LenAll([NAMELESS_FIRST[1]]) == 16;
  }

  // ---------------------------------------------------------------- the flag of simple arrays

  /** When every member has a byte the flag that the reader finds is set exactly on arrays with one
      member: no others of them have 257 members within a stride of 255. */
  lemma FlagIsRight(e: Elem)
    requires e.Array? && Laid(e) && Stride(e) <= 255 && forall i :: 0 <= i < |e.kids| ==> 1 <= SizeOf(e.kids[i])
    ensures |e.kids| % 256 == 1 <==> |e.kids| == 1
  {
    BytesForEach(e.kids, e.off);
  }

  lemma {:induction false} BytesForEach(kids: seq<Elem>, start: int)
    requires LaidAll(kids, start) && forall i :: 0 <= i < |kids| ==> 1 <= SizeOf(kids[i])
    ensures start + |kids| <= EndOf(kids, start)
    decreases |kids|
  {
    if kids != [] {
      BytesForEach(kids[..|kids| - 1], start);
    }
  }

  /** Different names for up to 400 members. */
  function NameOf(i: nat): seq<byte>
    requires i < 400
  {
    if i < 200 then [1 + i] else [1, i - 199]
  }

  /** Members of zero bytes. */
  function Empties(n: nat): (kids: seq<Elem>)
    requires n <= 400
    ensures |kids| == n && forall i :: 0 <= i < n ==> kids[i] == Simple(NameOf(i), 0, 0, 71, 0)
  {
    if n == 0 then [] else Empties(n - 1) + [Simple(NameOf(n - 1), 0, 0, 71, 0)]
  }

  lemma {:induction false} EmptiesLaid(n: nat)
    requires n <= 400
    ensures LaidAll(Empties(n), 0) && EndOf(Empties(n), 0) == 0
  {
    if n > 0 {
      EmptiesLaid(n - 1);
      assert Empties(n)[..n - 1] == Empties(n - 1);
    }
  }

  lemma {:induction false} EmptiesLen(n: nat)
    requires n <= 400
    ensures LenAll(Empties(n)) == 16 * n
  {
    if n > 0 {
      EmptiesLen(n - 1);
      EmptyLen(NameOf(n - 1));
      hide Len, LenAll;
      LenAllAppend(Empties(n - 1), Simple(NameOf(n - 1), 0, 0, 71, 0));
    } else {
      assert Empties(0) == [];
    }
  }

  lemma EmptyLen(name: seq<byte>)
    requires 1 <= |name| <= 2
    ensures Len(Simple(name, 0, 0, 71, 0)) == 16
  {
  }

  lemma EmptiesWire(n: nat)
    requires n <= 400
    ensures WireAll(Empties(n)) && NamedAll(Empties(n)) && FullAll(Empties(n))
  {
  }

  function Around(kids: seq<Elem>): Elem {
    Array([97], 0, 0, [1], kids)
  }

  lemma {:induction false} AroundLaid(kids: seq<Elem>)
    requires LaidAll(kids, 0) && EndOf(kids, 0) == 0
    ensures LaidAll([Around(kids)], 0)
    ensures EndOf([Around(kids)], 0) == SizeOf(Around(kids)) == Stride(Around(kids)) == 0
  {
    AroundSizes(kids);
    hide Laid, End;
    OneLaid(Around(kids));
  }

  lemma {:induction false} AroundSizes(kids: seq<Elem>)
    requires LaidAll(kids, 0) && EndOf(kids, 0) == 0
    ensures Laid(Around(kids)) && End(Around(kids)) == 0 && Stride(Around(kids)) == 0
  {
    hide Prod, LaidAll, EndOf;
  }

  lemma {:induction false} OneLaid(e: Elem)
    requires Laid(e)
    ensures LaidAll([e], 0) && EndOf([e], 0) == End(e)
  {
    hide Laid, End;
    assert [e][..0] == [] && LaidAll([], 0);
  }

  lemma AroundLen(kids: seq<Elem>)
    ensures LenAll([Around(kids)]) == 24 + LenAll(kids)
  {
    assert [Around(kids)][1..] == [];
  }

  lemma {:induction false} AroundWire(kids: seq<Elem>)
    requires WireAll(kids) && SizeOf(Around(kids)) == 0 && Stride(Around(kids)) == 0
    ensures WireAll([Around(kids)])
  {
    hide WireAll, SizeOf, Stride;
    assert Wire(Around(kids));
    OneWire(Around(kids));
  }

  lemma {:induction false} OneWire(e: Elem)
    requires Wire(e)
    ensures WireAll([e])
  {
    hide Wire;
  }

  lemma AroundNamed(kids: seq<Elem>)
    requires NamedAll(kids) && FullAll(kids) && kids != []
    ensures NamedAll([Around(kids)]) && FullAll([Around(kids)])
  {
  }

  /** A finished definition with an array of 257 members, which the flag marks as having one. */
  lemma CrowdIsFlagged() returns (e: Elem)
    ensures e.Array? && Finished([e]) && |e.kids| == 257 && |e.kids| % 256 == 1
  {
    e := CrowdOf(257);
  }

  lemma CrowdOf(n: nat) returns (e: Elem)
    requires 1 <= n <= 400
    ensures e.Array? && Finished([e]) && |e.kids| == n
  {
    hide Empties, LaidAll, WireAll, NamedAll, FullAll, EndOf, LenAll, SizeOf, Stride;
    var kids := Empties(n);
    e := Around(kids);
    EmptiesAre(n);
    AroundLaid(kids);
    AroundLen(kids);
    AroundWire(kids);
    AroundNamed(kids);
  }

  lemma EmptiesAre(n: nat)
    requires n <= 400
    ensures var kids := Empties(n);
            && LaidAll(kids, 0) && EndOf(kids, 0) == 0 && LenAll(kids) == 16 * n
            && WireAll(kids) && NamedAll(kids) && FullAll(kids) && |kids| == n
  {
    hide Empties, LaidAll, WireAll, NamedAll, FullAll, EndOf, LenAll;
    EmptiesLaid(n);
    EmptiesLen(n);
    EmptiesWire(n);
  }
}
