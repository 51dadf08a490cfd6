/** BaseHashMap and UniqueSortedList: a map and a set kept as arrays sorted by key, searched by
    halving until at most eight elements are left, which are compared one by one. */
module SortedMap {
  import opened Options

  /** Keys are compared by a total order; integers stand for any such type. */
  type Key = int

  ghost predicate Sorted(keys: seq<Key>) {
    forall i, j :: 0 <= i < j < |keys| ==> keys[i] < keys[j]
  }

  /** Everything before `at` is smaller and everything from `at` on is larger. */
  ghost predicate InsertionPoint(keys: seq<Key>, key: Key, at: nat) {
    && at <= |keys|
    && (forall i :: 0 <= i < at ==> keys[i] < key)
    && (forall i :: at <= i < |keys| ==> key < keys[i])
  }

  function Compare(a: Key, b: Key): int {
    if a == b then 0 else if a > b then 1 else -1
  }

  /** Position of the key, or the only place where it can be inserted. The bounds are unsigned:
      `middle - 1` never goes below zero and the range never gets empty. */
  method BinarySearch(keys: seq<Key>, key: Key) returns (found: bool, index: nat)
    requires Sorted(keys) && keys != []
    ensures index <= |keys|
    ensures found ==> index < |keys| && keys[index] == key
    ensures !found ==> InsertionPoint(keys, key, index)
  {
    var start, endIncluso: nat := 0, |keys| - 1;
    while true
      invariant start <= endIncluso < |keys|
      invariant forall i :: 0 <= i < start ==> keys[i] < key
      invariant forall i :: endIncluso < i < |keys| ==> key < keys[i]
      decreases endIncluso - start
    {
      var numElem := 1 + (endIncluso - start);
      if numElem <= 8 {
        index := start;
        for i := start to start + numElem
          invariant index == i && forall k :: 0 <= k < i ==> keys[k] < key
        {
          match Compare(key, keys[i]) {
            case 0 =>
              return true, i;
            case 1 =>
              index := i + 1;
            case _ =>
              return false, i;
          }
        }
        return false, index;
      }
      var middle := start + numElem / 2;
      match Compare(key, keys[middle]) {
        case 0 =>
          return true, middle;
        case 1 =>
          start := middle + 1;
        case _ =>
          endIncluso := middle - 1;
      }
    }
  }

  lemma InsertionPointUnique(keys: seq<Key>, key: Key, i: nat, j: nat)
    requires InsertionPoint(keys, key, i) && InsertionPoint(keys, key, j)
    ensures i == j
  {
    assert i < |keys| ==> (i < j <==> keys[i] < key);
    assert j < |keys| ==> (j < i <==> keys[j] < key);
  }

  lemma InsertKeepsSorted(keys: seq<Key>, key: Key, at: nat)
    requires Sorted(keys) && InsertionPoint(keys, key, at)
    ensures Sorted(keys[..at] + [key] + keys[at..]) && key !in keys
    ensures forall k :: k in keys[..at] + [key] + keys[at..] <==> k == key || k in keys
  {
    assert keys == keys[..at] + keys[at..];
  }

  lemma RemoveKeepsSorted(keys: seq<Key>, at: nat)
    requires Sorted(keys) && at < |keys|
    ensures Sorted(keys[..at] + keys[at + 1..]) && keys[at] !in keys[..at] + keys[at + 1..]
    ensures forall k :: k in keys && k != keys[at] <==> k in keys[..at] + keys[at + 1..]
  {
    assert keys == keys[..at] + [keys[at]] + keys[at + 1..];
  }

  lemma NotFoundNotThere(keys: seq<Key>, key: Key, at: nat)
    requires InsertionPoint(keys, key, at)
    ensures key !in keys
  {
  }

  // ---------------------------------------------------------------- the set

  class UniqueSortedList {
    var list: seq<Key>

    ghost predicate Valid()
      reads this
    {
      Sorted(list)
    }

    ghost function Items(): set<Key>
      reads this
    {
      set k | k in list
    }

    constructor ()
      ensures Valid() && Items() == {}
    {
      list := [];
    }

    method InsertIfNotExists(data: Key) returns (inserted: bool)
      requires Valid()
      modifies this
      ensures Valid() && inserted == (data !in old(Items())) && Items() == old(Items()) + {data}
    {
      if |list| == 0 {
        list := [data];
        return true;
      }
      var found, index := BinarySearch(list, data);
      if found {
        return false;
      }
      InsertKeepsSorted(list, data, index);
      list := list[..index] + [data] + list[index..];
      inserted := true;
    }

    method Remove(data: Key) returns (removed: bool)
      requires Valid()
      modifies this
      ensures Valid() && removed == (data in old(Items())) && Items() == old(Items()) - {data}
    {
      if |list| == 0 {
        return false;
      }
      var found, index := BinarySearch(list, data);
      if !found {
        NotFoundNotThere(list, data, index);
        return false;
      }
      RemoveKeepsSorted(list, index);
      list := list[..index] + list[index + 1..];
      removed := true;
    }

    method Exists(data: Key) returns (r: bool)
      requires Valid()
      ensures r == (data in Items())
    {
      if |list| == 0 {
        return false;
      }
      var index;
      r, index := BinarySearch(list, data);
      if !r {
        NotFoundNotThere(list, data, index);
      }
    }
  }

  // ---------------------------------------------------------------- the map

  datatype Elem<V> = Elem(key: Key, value: V)

  /** Where a key is, or where it goes. */
  datatype Position = Position(key: Key, index: nat)

  function Keys<V>(list: seq<Elem<V>>): (ks: seq<Key>)
    ensures |ks| == |list| && forall i :: 0 <= i < |ks| ==> ks[i] == list[i].key
  {
    seq(|list|, i requires 0 <= i < |list| => list[i].key)
  }

  /** The finite map a sorted list stands for. */
  function ToMap<V>(list: seq<Elem<V>>): map<Key, V>
    decreases |list|
  {
    if list == [] then map[]
    else ToMap(list[..|list| - 1])[list[|list| - 1].key := list[|list| - 1].value]
  }

  lemma {:induction false} ToMapAt<V>(list: seq<Elem<V>>, k: Key)
    requires Sorted(Keys(list))
    ensures k in ToMap(list) <==> k in Keys(list)
    ensures forall i :: 0 <= i < |list| && list[i].key == k ==> k in ToMap(list) && ToMap(list)[k] == list[i].value
    decreases |list|
  {
    if list != [] {
      var n := |list| - 1;
      var init := list[..n];
      KeysPrefix(list, n);
      ToMapAt(init, k);
      forall i | 0 <= i < |list| && list[i].key == k
        ensures k in ToMap(list) && ToMap(list)[k] == list[i].value
      {
        if i < n {
          assert init[i] == list[i] && Keys(list)[i] < Keys(list)[n];
        }
      }
      assert Keys(list) == Keys(init) + [list[n].key];
    }
  }

  lemma KeysPrefix<V>(list: seq<Elem<V>>, n: nat)
    requires n <= |list| && Sorted(Keys(list))
    ensures Keys(list[..n]) == Keys(list)[..n] && Sorted(Keys(list[..n]))
  {
  }

  /** A map that agrees with a sorted list at every key is the map of the list. */
  lemma ToMapIs<V>(list: seq<Elem<V>>, m: map<Key, V>)
    requires Sorted(Keys(list)) && m.Keys == set k | k in Keys(list)
    requires forall i :: 0 <= i < |list| ==> m[Keys(list)[i]] == list[i].value
    ensures ToMap(list) == m
  {
    hide ToMap, Sorted;
    forall k
      ensures k in ToMap(list) <==> k in m
      ensures k in m ==> ToMap(list)[k] == m[k]
    {
      ToMapIsAt(list, m, k);
    }
  }

  lemma ToMapIsAt<V>(list: seq<Elem<V>>, m: map<Key, V>, k: Key)
    requires Sorted(Keys(list)) && m.Keys == set k | k in Keys(list)
    requires forall i :: 0 <= i < |list| ==> m[Keys(list)[i]] == list[i].value
    ensures k in ToMap(list) <==> k in m
    ensures k in m ==> ToMap(list)[k] == m[k]
  {
    hide ToMap, Sorted;
    ToMapAt(list, k);
    if k in m {
      var i :| 0 <= i < |Keys(list)| && Keys(list)[i] == k;
      assert list[i].key == k;
    }
  }

  lemma ToMapInsert<V>(list: seq<Elem<V>>, e: Elem<V>, at: nat)
    requires Sorted(Keys(list)) && InsertionPoint(Keys(list), e.key, at)
    ensures var l := list[..at] + [e] + list[at..];
            Sorted(Keys(l)) && ToMap(l) == ToMap(list)[e.key := e.value] && e.key !in ToMap(list)
  {
    var l := list[..at] + [e] + list[at..];
    var ks := Keys(list);
    InsertKeepsSorted(ks, e.key, at);
    assert Keys(l) == ks[..at] + [e.key] + ks[at..];
    forall k ensures k in ToMap(list) <==> k in ks { ToMapAt(list, k); }
    hide ToMap;
    InsertAgrees(list, e, at);
    hide Sorted, InsertionPoint;
    ToMapIs(l, ToMap(list)[e.key := e.value]);
  }

  lemma InsertAgrees<V>(list: seq<Elem<V>>, e: Elem<V>, at: nat)
    requires Sorted(Keys(list)) && InsertionPoint(Keys(list), e.key, at)
    ensures var l, m := list[..at] + [e] + list[at..], ToMap(list)[e.key := e.value];
            forall i :: 0 <= i < |l| ==> l[i].key in m && m[l[i].key] == l[i].value
    ensures e.key !in Keys(list)
  {
    hide ToMap, Sorted;
    var l, m := list[..at] + [e] + list[at..], ToMap(list)[e.key := e.value];
    forall i | 0 <= i < |l|
      ensures l[i].key in m && m[l[i].key] == l[i].value
    {
      if i != at {
        var j := if i < at then i else i - 1;
        ToMapAt(list, list[j].key);
        assert Keys(list)[j] != e.key;
      }
    }
  }

  lemma ToMapRemove<V>(list: seq<Elem<V>>, at: nat)
    requires Sorted(Keys(list)) && at < |list|
    ensures var l := list[..at] + list[at + 1..];
            Sorted(Keys(l)) && ToMap(l) == ToMap(list) - {list[at].key} && list[at].key in ToMap(list)
  {
    var l := list[..at] + list[at + 1..];
    var ks := Keys(list);
    RemoveKeepsSorted(ks, at);
    assert Keys(l) == ks[..at] + ks[at + 1..];
    var m := ToMap(list) - {list[at].key};
    forall k ensures k in ToMap(list) <==> k in ks { ToMapAt(list, k); }
    forall i | 0 <= i < |l|
      ensures m[Keys(l)[i]] == l[i].value
    {
      var j := if i < at then i else i + 1;
      ToMapAt(list, list[j].key);
      assert ks[j] != ks[at];
    }
    ToMapIs(l, m);
  }

  lemma ToMapReplace<V>(list: seq<Elem<V>>, at: nat, v: V)
    requires Sorted(Keys(list)) && at < |list|
    ensures var l := list[at := Elem(list[at].key, v)];
            Sorted(Keys(l)) && ToMap(l) == ToMap(list)[list[at].key := v] && list[at].key in ToMap(list)
  {
    var l := list[at := Elem(list[at].key, v)];
    assert Keys(l) == Keys(list);
    var m := ToMap(list)[list[at].key := v];
    forall k ensures k in ToMap(list) <==> k in Keys(list) { ToMapAt(list, k); }
    forall i | 0 <= i < |l|
      ensures m[Keys(l)[i]] == l[i].value
    {
      ToMapAt(list, list[i].key);
    }
    ToMapIs(l, m);
  }

  class HashMap<V> {
    var list: seq<Elem<V>>

    ghost predicate Valid()
      reads this
    {
      Sorted(Keys(list))
    }

    ghost function Contents(): map<Key, V>
      reads this
    {
      ToMap(list)
    }

    constructor ()
      ensures Valid() && Contents() == map[]
    {
      list := [];
    }

    method InsertIfNotExists(key: Key, value: V) returns (inserted: bool)
      requires Valid()
      modifies this
      ensures Valid() && inserted == (key !in old(Contents()))
      ensures Contents() == if inserted then old(Contents())[key := value] else old(Contents())
    {
      hide ToMap, InsertionPoint, Sorted;
      var found, index := PrivSearch(key);
      if found {
        return false;
      }
      ToMapInsert(list, Elem(key, value), index);
      list := list[..index] + [Elem(key, value)] + list[index..];
      inserted := true;
    }

    method InsertOrReplaceValue(key: Key, value: V) returns (inserted: bool)
      requires Valid()
      modifies this
      ensures Valid() && inserted == (key !in old(Contents())) && Contents() == old(Contents())[key := value]
    {
      hide ToMap, InsertionPoint, Sorted;
      var found, index := PrivSearch(key);
      if found {
        ToMapReplace(list, index, value);
        list := list[index := Elem(key, value)];
        return false;
      }
      ToMapInsert(list, Elem(key, value), index);
      list := list[..index] + [Elem(key, value)] + list[index..];
      inserted := true;
    }

    /** Searches the list; an empty one is answered without searching. */
    method PrivSearch(key: Key) returns (found: bool, index: nat)
      requires Valid()
      ensures found == (key in Contents())
      ensures found ==> index < |list| && list[index].key == key && Contents()[key] == list[index].value
      ensures !found ==> InsertionPoint(Keys(list), key, index)
    {
      ToMapAt(list, key);
      if |list| == 0 {
        return false, 0;
      }
      found, index := BinarySearch(Keys(list), key);
      if !found {
        NotFoundNotThere(Keys(list), key, index);
      }
    }

    method Remove(key: Key) returns (removed: bool)
      requires Valid()
      modifies this
      ensures Valid() && removed == (key in old(Contents())) && Contents() == old(Contents()) - {key}
    {
      hide ToMap, InsertionPoint, Sorted;
      var found, index := PrivSearch(key);
      if !found {
        return false;
      }
      ToMapRemove(list, index);
      list := list[..index] + list[index + 1..];
      removed := true;
    }

    method Exists(key: Key) returns (r: bool)
      requires Valid()
      ensures r == (key in Contents())
    {
      var index;
      r, index := PrivSearch(key);
    }

    method Find(key: Key) returns (value: Option<V>)
      requires Valid()
      ensures value == if key in Contents() then Some(Contents()[key]) else None
    {
      var found, index := PrivSearch(key);
      value := if found then Some(list[index].value) else None;
    }

    method FindPosition(key: Key) returns (found: bool, pos: Position)
      requires Valid()
      ensures found == (key in Contents()) && (!found ==> pos.key == key)
      ensures if found then pos.index < |list| && list[pos.index].key == key && list[pos.index].value == Contents()[key]
              else InsertionPoint(Keys(list), key, pos.index)
    {
      var index;
      found, index := PrivSearch(key);
      pos := Position(key, index);
    }

    /** `pos` comes from a search that did not find the key, with no change in between. */
    method InsertInPosition(pos: Position, value: V)
      requires Valid() && InsertionPoint(Keys(list), pos.key, pos.index)
      modifies this
      ensures Valid() && pos.key !in old(Contents()) && Contents() == old(Contents())[pos.key := value]
    {
      hide ToMap, InsertionPoint, Sorted;
      PositionInList(pos);
      ToMapInsert(list, Elem(pos.key, value), pos.index);
      list := list[..pos.index] + [Elem(pos.key, value)] + list[pos.index..];
    }

    lemma PositionInList(pos: Position)
      requires InsertionPoint(Keys(list), pos.key, pos.index)
      ensures pos.index <= |list|
    {
    }
  }
}
