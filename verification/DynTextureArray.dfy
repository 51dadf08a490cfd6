/** DynamicTextureArray: a stable index for every texture handle. The first sixteen indices are
    reserved and are given out by hand; the others are given out lowest first. */
module DynTextureArrays {
  import opened Arith
  import opened Options
  import opened Bitfields
  import opened SortedMap

  const NUM_RESERVED: nat := 16

  /** No two handles have the same index. */
  ghost predicate OneToOne(m: map<Key, nat>) {
    forall a, b :: a in m && b in m && m[a] == m[b] ==> a == b
  }

  ghost predicate Taken(m: map<Key, nat>, index: nat) {
    exists h :: h in m && m[h] == index
  }

  /** What the bits and the table agree on: distinct indices, the reserved bits set, and above
      them exactly the bits of indices in use. Padding bits are free to be anything. */
  ghost predicate Agree(bits: set<nat>, m: map<Key, nat>, numBit: nat) {
    && OneToOne(m)
    && (forall k: nat :: k < NUM_RESERVED ==> k in bits)
    && (forall h :: h in m ==> m[h] < numBit)
    && (forall k: nat :: NUM_RESERVED <= k < numBit ==> (k in bits <==> Taken(m, k)))
  }

  lemma TakenAfterAdd(m: map<Key, nat>, h: Key, index: nat, k: nat)
    requires h !in m
    ensures Taken(m[h := index], k) <==> k == index || Taken(m, k)
  {
    var n := m[h := index];
    if k == index { assert n[h] == k; }
    if Taken(m, k) {
      var g :| g in m && m[g] == k;
      assert n[g] == k;
    }
  }

  lemma TakenAfterRemove(m: map<Key, nat>, h: Key, k: nat)
    requires OneToOne(m) && h in m
    ensures Taken(m - {h}, k) <==> k != m[h] && Taken(m, k)
  {
    var n := m - {h};
    if k != m[h] && Taken(m, k) {
      var g :| g in m && m[g] == k;
      assert g in n && n[g] == k;
    }
    if Taken(n, k) {
      var g :| g in n && n[g] == k;
      assert g in m && m[g] == k;
    }
  }

  /** A new handle at an index nobody has: the agreement is kept exactly then. */
  lemma AgreeAfterAdd(bits: set<nat>, m: map<Key, nat>, numBit: nat, h: Key, index: nat)
    requires Agree(bits, m, numBit) && h !in m && index < numBit
    ensures Agree(bits + {index}, m[h := index], numBit) <==> !Taken(m, index)
  {
    var n := m[h := index];
    forall k: nat ensures Taken(n, k) <==> k == index || Taken(m, k) {
      TakenAfterAdd(m, h, index, k);
    }
    if Taken(m, index) {
      var g :| g in m && m[g] == index;
      assert g in n && n[g] == n[h] && g != h;
    } else {
      assert OneToOne(n);
    }
  }

  /** Dropping a handle and its bit: the agreement is kept exactly when the index was not a
      reserved one. */
  lemma AgreeAfterRemove(bits: set<nat>, m: map<Key, nat>, numBit: nat, h: Key)
    requires Agree(bits, m, numBit) && h in m
    ensures Agree(bits - {m[h]}, m - {h}, numBit) <==> m[h] >= NUM_RESERVED
  {
    forall k: nat ensures Taken(m - {h}, k) <==> k != m[h] && Taken(m, k) {
      TakenAfterRemove(m, h, k);
    }
    if m[h] < NUM_RESERVED {
      assert m[h] !in bits - {m[h]};
    }
  }

  lemma AgreeSamePadding(bits: set<nat>, more: set<nat>, m: map<Key, nat>, numBit: nat)
    requires Agree(bits, m, numBit) && numBit >= NUM_RESERVED
    requires forall k: nat :: k < numBit ==> (k in bits <==> k in more)
    ensures Agree(more, m, numBit)
  {
  }

  class DynamicTextureArray {
    const bitmask: Bitfield
    const hashMap: HashMap<nat>

    ghost predicate Wired()
      reads this, bitmask, hashMap
    {
      bitmask.Valid() && hashMap.Valid() && NUM_RESERVED <= bitmask.numBit <= U32MAX
    }

    ghost predicate Valid()
      reads this, bitmask, hashMap
    {
      Wired() && Agree(Bits(bitmask.p), hashMap.Contents(), bitmask.numBit)
    }

    constructor (numMaxTexture: nat, memory: seq<Words.word>)
      requires NUM_RESERVED <= numMaxTexture <= U32MAX && |memory| == WordCount(numMaxTexture)
      ensures Valid() && fresh(bitmask) && fresh(hashMap) && bitmask.numBit == numMaxTexture
      ensures hashMap.Contents() == map[]
    {
      hide Bits;
      bitmask := new Bitfield(numMaxTexture, memory);
      hashMap := new HashMap<nat>();
      new;
      bitmask.Zero();
      for i := 0 to NUM_RESERVED
        invariant bitmask.Valid() && bitmask.numBit == numMaxTexture
        invariant forall k: nat :: k in Bits(bitmask.p) <==> k < i
        invariant hashMap.Valid() && hashMap.Contents() == map[]
      {
        bitmask.Set(i);
      }
    }

    method Find(texHandle: Key) returns (index: Option<nat>)
      requires Valid()
      ensures index == if texHandle in hashMap.Contents() then Some(hashMap.Contents()[texHandle]) else None
    {
      index := hashMap.Find(texHandle);
    }

    /** A handle already known must come with its own index. The arrays stay in agreement exactly
        when the slot was not given to another handle before. */
    method AddReserved(texHandle: Key, reservedIndex: nat) returns (ok: bool)
      requires Valid() && reservedIndex < NUM_RESERVED
      requires texHandle in hashMap.Contents() ==> hashMap.Contents()[texHandle] == reservedIndex
      modifies hashMap
      ensures ok && Wired() && hashMap.Contents() == old(hashMap.Contents())[texHandle := reservedIndex]
      ensures Valid() <==> (texHandle in old(hashMap.Contents()) || !Taken(old(hashMap.Contents()), reservedIndex))
    {
      hide Bits;
      ghost var m, bits := hashMap.Contents(), Bits(bitmask.p);
      var found, pos := hashMap.FindPosition(texHandle);
      if found {
        assert m[texHandle := reservedIndex] == m;
        return true;
      }
      var isSet := bitmask.IsBitSet(reservedIndex);
      assert isSet;
      hashMap.InsertInPosition(pos, reservedIndex);
      AgreeAfterAdd(bits, m, bitmask.numBit, texHandle, reservedIndex);
      assert bits + {reservedIndex} == bits;
      ok := true;
    }

    /** The index of a known handle, the lowest index at or above sixteen that nobody has for a
        new one, or `U32MAX` when every one of those is taken. */
    method AddIfDontExists(texHandle: Key) returns (index: nat, wasNew: bool)
      requires Valid()
      modifies bitmask, hashMap
      ensures Valid() && bitmask.numBit == old(bitmask.numBit)
      ensures texHandle in old(hashMap.Contents()) ==> !wasNew && index == old(hashMap.Contents())[texHandle]
      ensures wasNew <==>
                texHandle !in old(hashMap.Contents())
                && exists k: nat :: NUM_RESERVED <= k < bitmask.numBit && !Taken(old(hashMap.Contents()), k)
      ensures wasNew ==> NUM_RESERVED <= index < bitmask.numBit && !Taken(old(hashMap.Contents()), index)
      ensures wasNew ==> forall k: nat :: NUM_RESERVED <= k < index ==> Taken(old(hashMap.Contents()), k)
      ensures hashMap.Contents()
              == if wasNew then old(hashMap.Contents())[texHandle := index] else old(hashMap.Contents())
      ensures index == U32MAX <==> !wasNew && texHandle !in old(hashMap.Contents())
    {
      hide Bits, OneToOne, Taken;
      ghost var m, bits := hashMap.Contents(), Bits(bitmask.p);
      var found, pos := hashMap.FindPosition(texHandle);
      if found {
        return hashMap.list[pos.index].value, false;
      }
      var ok;
      ok, index := bitmask.FindAndSetFirstFreeBit();
      if ok {
        assert index >= NUM_RESERVED;
        hashMap.InsertInPosition(pos, index);
        AgreeAfterAdd(bits, m, bitmask.numBit, texHandle, index);
        return index, true;
      }
      AgreeSamePadding(bits, Bits(bitmask.p), m, bitmask.numBit);
      return U32MAX, false;
    }

    /** Removing a handle keeps the agreement exactly when its index is not a reserved one. */
    method Remove(texHandle: Key)
      requires Valid()
      modifies bitmask, hashMap
      ensures Wired() && bitmask.numBit == old(bitmask.numBit)
      ensures hashMap.Contents() == old(hashMap.Contents()) - {texHandle}
      ensures Valid() <==> texHandle in old(hashMap.Contents()) ==> old(hashMap.Contents())[texHandle] >= NUM_RESERVED
    {
      hide Bits, OneToOne, Taken;
      ghost var m, bits := hashMap.Contents(), Bits(bitmask.p);
      var found := Find(texHandle);
      if found.Some? {
        var removed := hashMap.Remove(texHandle);
        bitmask.Clear(found.value);
        AgreeAfterRemove(bits, m, bitmask.numBit, texHandle);
      }
    }
  }
}
