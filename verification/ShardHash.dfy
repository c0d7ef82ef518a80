/**
 * Shard selection (internal/cluster/receiver.go): the low four bits of the 32-bit
 * FNV-1a hash (section 2 of draft-eastlake-fnv) of the host ID's bytes.
 */
module ShardHash {

  type HostID = seq<bv8>

  const OFFSET_BASIS: bv32 := 2166136261
  const FNV_PRIME: bv32 := 16777619
  const SHARD_MASK: bv32 := 15
  const SHARD_COUNT: nat := 16

  function Fnv1a(id: HostID): bv32 {
    if id == [] then OFFSET_BASIS
    else HashByte(Fnv1a(id[..|id| - 1]), id[|id| - 1])
  }

  function ShardIndex(id: HostID): (i: nat)
    ensures i < SHARD_COUNT
  {
    MaskedIsSmall(Fnv1a(id));
    (Fnv1a(id) & SHARD_MASK) as nat
  }

  lemma MaskedIsSmall(h: bv32)
    ensures (h & 15) as nat < 16
  {
    assert h & 15 < 16;
  }

  function HashByte(h: bv32, b: bv8): bv32 {
    (h ^ (b as bv32)) * FNV_PRIME
  }

  lemma HashExtends(id: HostID, i: nat)
    requires i < |id|
    ensures Fnv1a(id[..i + 1]) == HashByte(Fnv1a(id[..i]), id[i])
  {
    assert id[..i + 1][..i] == id[..i];
  }

  /** The byte loop of `getShard`. */
  method HashBytes(id: HostID) returns (h: bv32)
    ensures h == Fnv1a(id)
  {
    h := OFFSET_BASIS;
    for i := 0 to |id|
      invariant h == Fnv1a(id[..i])
    {
      HashExtends(id, i);
      h := HashByte(h, id[i]);
    }
    assert id[..|id|] == id;
  }

  method GetShardIndex(id: HostID) returns (index: nat)
    ensures index == ShardIndex(id)
  {
    var h := HashBytes(id);
    MaskedIsSmall(h);
    index := (h & SHARD_MASK) as nat;
  }

  /** Three published values of 32-bit FNV-1a: of nothing, of "a" and of "foobar". */
  lemma PublishedHashes()
    ensures Fnv1a([]) == 0x811C9DC5
    ensures Fnv1a([0x61]) == 0xE40C292C
    ensures Fnv1a([0x66, 0x6F, 0x6F, 0x62, 0x61, 0x72]) == 0xBF9CF968
  {
    var id: HostID := [0x66, 0x6F, 0x6F, 0x62, 0x61, 0x72];
    assert [0x61][..0] == [];
    HashExtends(id, 0);
    HashExtends(id, 1);
    HashExtends(id, 2);
    HashExtends(id, 3);
    HashExtends(id, 4);
    HashExtends(id, 5);
    assert id[..0] == [] && id[..6] == id;
  }

  // ---- The four-bit recurrence ---------------------------------------------------

  function Low(b: bv8): bv8 {
    b & 15
  }

  function NibbleStep(s: bv8, b: bv8): bv8 {
    ((s ^ Low(b)) * 3) & 15
  }

  /** Only the low nibble of each byte matters, and four bits of state suffice. */
  function Nibble(id: HostID): bv8 {
    if id == [] then 5 else NibbleStep(Nibble(id[..|id| - 1]), id[|id| - 1])
  }

  lemma LowBitsOfProduct(h: bv32, b: bv8, s: bv8)
    requires h & 15 == s as bv32
    ensures HashByte(h, b) & SHARD_MASK == NibbleStep(s, b) as bv32
  {
  }

  lemma {:induction false} HashFollowsNibbles(id: HostID)
    ensures Fnv1a(id) & SHARD_MASK == Nibble(id) as bv32
    ensures ShardIndex(id) == Nibble(id) as nat
  {
    if id != [] {
      HashFollowsNibbles(id[..|id| - 1]);
      LowBitsOfProduct(Fnv1a(id[..|id| - 1]), id[|id| - 1], Nibble(id[..|id| - 1]));
    }
  }

  lemma StepSeparatesBytes(s: bv8, b1: bv8, b2: bv8)
    ensures NibbleStep(s, b1) == NibbleStep(s, b2) <==> Low(b1) == Low(b2)
  {
  }

  lemma StepSeparatesStates(s1: bv8, s2: bv8, b: bv8)
    requires s1 < 16 && s2 < 16
    ensures NibbleStep(s1, b) == NibbleStep(s2, b) <==> s1 == s2
  {
  }

  lemma NibbleIsSmall(id: HostID)
    ensures Nibble(id) < 16
  {
    if id != [] {
      StepIsSmall(Nibble(id[..|id| - 1]), id[|id| - 1]);
    }
  }

  lemma StepIsSmall(s: bv8, b: bv8)
    ensures NibbleStep(s, b) < 16
  {
  }

  lemma {:induction false} SuffixSeparates(id1: HostID, id2: HostID, suffix: HostID)
    ensures Nibble(id1 + suffix) == Nibble(id2 + suffix) <==> Nibble(id1) == Nibble(id2)
  {
    if suffix == [] {
      assert id1 + suffix == id1 && id2 + suffix == id2;
    } else {
      var init, b := suffix[..|suffix| - 1], suffix[|suffix| - 1];
      assert suffix == init + [b];
      SuffixSeparates(id1, id2, init);
      assert (id1 + suffix)[..|id1 + suffix| - 1] == id1 + init;
      assert (id2 + suffix)[..|id2 + suffix| - 1] == id2 + init;
      NibbleIsSmall(id1 + init);
      NibbleIsSmall(id2 + init);
      StepSeparatesStates(Nibble(id1 + init), Nibble(id2 + init), b);
    }
  }

  /** Host IDs that differ in a single byte share a shard exactly when the low
      nibbles of that byte agree. */
  lemma OneByteApart(prefix: HostID, b1: bv8, b2: bv8, suffix: HostID)
    ensures ShardIndex(prefix + [b1] + suffix) == ShardIndex(prefix + [b2] + suffix) <==> Low(b1) == Low(b2)
  {
    var id1, id2 := prefix + [b1], prefix + [b2];
    assert id1[..|id1| - 1] == prefix && id2[..|id2| - 1] == prefix;
    StepSeparatesBytes(Nibble(prefix), b1, b2);
    SuffixSeparates(id1, id2, suffix);
    HashFollowsNibbles(id1 + suffix);
    HashFollowsNibbles(id2 + suffix);
    AsNatInjective(Nibble(id1 + suffix), Nibble(id2 + suffix));
  }

  lemma AsNatInjective(a: bv8, b: bv8)
    ensures a as nat == b as nat <==> a == b
  {
    assert (a as nat) as bv8 == a;
    assert (b as nat) as bv8 == b;
  }
}
