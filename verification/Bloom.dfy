/** The Bloom filter of a sorted file: it may say yes for a key that is not there, and never says no for one that is. */
module Bloom {
  import opened Bounds
  import opened Keys
  import opened Versions

  const BITS_PER_KEY: nat := 10
  const MIN_BITS: nat := 64
  const TWO32: nat := 0x1_0000_0000

  /** The key's hash: FNV-1a, then the mixing steps of splitmix64. */
  function Hash(key: Bytes): bv64 {
    var a := Fnv(key);
    var b := (a ^ (a >> 30)) * 0xbf58_476d_1ce4_e5b9;
    var c := (b ^ (b >> 27)) * 0x94d0_49bb_1331_11eb;
    c ^ (c >> 31)
  }

  function Fnv(key: Bytes): bv64 {
    if key == [] then 0xcbf2_9ce4_8422_2325
    else (Fnv(key[..|key| - 1]) ^ (key[|key| - 1] as bv64)) * 0x0000_0100_0000_01b3
  }

  function HashOf(key: Bytes): nat {
    Hash(key) as nat
  }

  /** The two halves the probe sequence walks with; the step is odd. */
  function Split(hash: nat): (r: (nat, nat))
    ensures r.0 < TWO32 && r.1 < TWO32 && r.1 % 2 == 1
  {
    var first, second := hash % TWO32, (hash / TWO32) % TWO32;
    (first, if second % 2 == 0 then second + 1 else second)
  }

  /** The walk wraps around at 32 bits. */
  function Position(hash: nat, i: nat): (r: nat)
    ensures r < TWO32
  {
    if i == 0 then Split(hash).0 else (Position(hash, i - 1) + Split(hash).1) % TWO32
  }

  /** The number of bits probes are taken modulo, cut to 32 bits. */
  function BitLen(bytes: nat): nat {
    if bytes * 8 <= U32_MAX then bytes * 8 else U32_MAX
  }

  function OptimalProbes(bitsPerKey: nat): (r: nat)
    ensures 1 <= r <= 30
  {
    var probes := (bitsPerKey * 69315 + 50000) / 100000;
    if probes < 1 then 1 else if probes > 30 then 30 else probes
  }

  function Mask(i: nat): bv8
    requires i < 8
  {
    1 << i
  }

  predicate BitSet(data: seq<bv8>, bit: nat)
    requires bit / 8 < |data|
  {
    data[bit / 8] & Mask(bit % 8) != 0
  }

  function WithBit(data: seq<bv8>, bit: nat): (r: seq<bv8>)
    requires bit / 8 < |data|
    ensures |r| == |data|
  {
    data[bit / 8 := data[bit / 8] | Mask(bit % 8)]
  }

  lemma Masks(i: nat)
    requires i < 8
    ensures Mask(i) != 0
  {
    assert i == 0 || i == 1 || i == 2 || i == 3 || i == 4 || i == 5 || i == 6 || i == 7;
  }

  lemma OrKeeps(x: bv8, m: bv8, n: bv8)
    ensures x & n != 0 ==> (x | m) & n != 0
    ensures m != 0 ==> (x | m) & m != 0
  {
  }

  /** Setting a bit sets it and clears none. */
  lemma SetsBit(data: seq<bv8>, bit: nat, other: nat)
    requires bit / 8 < |data| && other / 8 < |data|
    ensures BitSet(WithBit(data, bit), bit)
    ensures BitSet(data, other) ==> BitSet(WithBit(data, bit), other)
  {
    hide Mask;
    Masks(bit % 8);
    OrKeeps(data[bit / 8], Mask(bit % 8), Mask(other % 8));
  }

  // ---- What a filter answers ----

  /** The last byte holds the number of probes. */
  predicate WellFormed(data: seq<bv8>) {
    |data| >= 2 && data[|data| - 1] != 0
  }

  lemma Probed(data: seq<bv8>, hash: nat, i: nat)
    requires |data| >= 2
    ensures var n := BitLen(|data| - 1); n > 0 && (Position(hash, i) % n) / 8 < |data| - 1
  {
  }

  /** The bit the i-th probe looks at is set. */
  ghost predicate Hit(data: seq<bv8>, hash: nat, i: nat)
    requires |data| >= 2
  {
    Probed(data, hash, i);
    BitSet(data, Position(hash, i) % BitLen(|data| - 1))
  }

  ghost predicate MayContain(data: seq<bv8>, hash: nat)
    requires |data| >= 2
  {
    forall i | 0 <= i < data[|data| - 1] as nat :: Hit(data, hash, i)
  }

  method TestHash(data: seq<bv8>, hash: nat) returns (may: bool)
    requires WellFormed(data)
    ensures may <==> MayContain(data, hash)
  {
    var bitLen := BitLen(|data| - 1);
    var position, step := Split(hash).0, Split(hash).1;
    for i := 0 to data[|data| - 1] as nat
      invariant position == Position(hash, i)
      invariant forall j | 0 <= j < i :: Hit(data, hash, j)
    {
      Probed(data, hash, i);
      var bit := position % bitLen;
      if !BitSet(data, bit) {
        assert !Hit(data, hash, i);
        return false;
      }
      position := (position + step) % TWO32;
    }
    return true;
  }

  /** The bytes of a filter in its file. */
  function AsBytes(data: seq<bv8>): (r: Bytes)
    ensures |r| == |data|
  {
    seq(|data|, i requires 0 <= i < |data| => data[i] as byte)
  }

  function FromBytes(bytes: Bytes): (r: seq<bv8>)
    ensures |r| == |bytes|
  {
    seq(|bytes|, i requires 0 <= i < |bytes| => bytes[i] as bv8)
  }

  /** Reads a filter back, if the bytes can describe one. */
  function Decode(bytes: Bytes): Option<seq<bv8>> {
    if |bytes| >= 2 && bytes[|bytes| - 1] != 0 then Some(FromBytes(bytes)) else None
  }

  lemma ByteRoundTrip(x: bv8)
    ensures (x as byte) as bv8 == x
    ensures x as byte == 0 ==> x == 0
  {
    assert ((x as int) as bv8) as int == x as int;
  }

  lemma DecodesStored(data: seq<bv8>)
    requires WellFormed(data)
    ensures Decode(AsBytes(data)) == Some(data)
  {
    forall i | 0 <= i < |data|
      ensures (data[i] as byte) as bv8 == data[i] && (data[i] as byte == 0 ==> data[i] == 0)
    {
      ByteRoundTrip(data[i]);
    }
    assert FromBytes(AsBytes(data)) == data;
  }

  /** Bytes of the bit array over `n` keys. */
  function ArrayBytes(n: nat, bitsPerKey: nat): (r: nat)
    ensures r >= 8
  {
    var bits := if n * bitsPerKey < MIN_BITS then MIN_BITS else n * bitsPerKey;
    (bits + 7) / 8
  }

  /** Every bit of every key's walk is set. */
  ghost predicate HoldsProbes(data: seq<bv8>, hash: nat, probes: nat)
    requires |data| >= 2
  {
    forall i | 0 <= i < probes :: Hit(data, hash, i)
  }

  lemma SetKeepsHits(data: seq<bv8>, bit: nat, hash: nat, i: nat)
    requires |data| >= 2 && bit / 8 < |data| - 1
    ensures Hit(data, hash, i) ==> Hit(WithBit(data, bit), hash, i)
    ensures Position(hash, i) % BitLen(|data| - 1) == bit ==> Hit(WithBit(data, bit), hash, i)
  {
    Probed(data, hash, i);
    Probed(WithBit(data, bit), hash, i);
    SetsBit(data, bit, Position(hash, i) % BitLen(|data| - 1));
  }

  ghost predicate Grows(data: seq<bv8>, data': seq<bv8>)
    requires |data| >= 2
  {
    |data'| == |data| && forall h: nat, i: nat :: Hit(data, h, i) ==> Hit(data', h, i)
  }

  lemma SetGrows(data: seq<bv8>, bit: nat)
    requires |data| >= 2 && bit / 8 < |data| - 1
    ensures Grows(data, WithBit(data, bit))
  {
    hide Hit;
    forall h: nat, i: nat
      ensures Hit(data, h, i) ==> Hit(WithBit(data, bit), h, i)
    {
      SetKeepsHits(data, bit, h, i);
    }
  }

  method AddHash(before: seq<bv8>, hash: nat, probes: nat) returns (data: seq<bv8>)
    requires |before| >= 2
    ensures Grows(before, data) && HoldsProbes(data, hash, probes)
  {
    hide Hit, WithBit, Split;
    data := before;
    var bitLen := BitLen(|data| - 1);
    var position, step := Split(hash).0, Split(hash).1;
    for i := 0 to probes
      invariant Grows(before, data) && position == Position(hash, i) && HoldsProbes(data, hash, i)
    {
      Probed(data, hash, i);
      var bit := position % bitLen;
      SetGrows(data, bit);
      SetKeepsHits(data, bit, hash, i);
      data := WithBit(data, bit);
      position := (position + step) % TWO32;
    }
  }

  /** A filter over these hashes, which it will all answer for. */
  method Build(hashes: seq<nat>, bitsPerKey: nat) returns (data: seq<bv8>)
    ensures |data| == ArrayBytes(|hashes|, bitsPerKey) + 1 && WellFormed(data)
    ensures data[|data| - 1] as nat == OptimalProbes(bitsPerKey)
    ensures forall h | h in hashes :: MayContain(data, h)
  {
    hide Hit;
    var probes := OptimalProbes(bitsPerKey);
    var bytes := ArrayBytes(|hashes|, bitsPerKey);
    data := seq(bytes + 1, _ => 0);
    for k := 0 to |hashes|
      invariant |data| == bytes + 1
      invariant forall j | 0 <= j < k :: HoldsProbes(data, hashes[j], probes)
    {
      data := AddHash(data, hashes[k], probes);
    }
    Closes(data, probes, hashes);
    data := data[bytes := probes as bv8];
  }

  lemma Closes(data: seq<bv8>, probes: nat, hashes: seq<nat>)
    requires |data| >= 2 && 1 <= probes <= 30 && forall j | 0 <= j < |hashes| :: HoldsProbes(data, hashes[j], probes)
    ensures var closed := data[|data| - 1 := probes as bv8];
            closed[|data| - 1] as nat == probes && WellFormed(closed) && forall h | h in hashes :: MayContain(closed, h)
  {
    hide Hit;
    var closed := data[|data| - 1 := probes as bv8];
    assert (probes as bv8) as int == probes;
    forall h | h in hashes
      ensures MayContain(closed, h)
    {
      var j :| 0 <= j < |hashes| && hashes[j] == h;
      assert HoldsProbes(data, hashes[j], probes);
      forall i | 0 <= i < probes
        ensures Hit(closed, h, i)
      {
        LastByteIsNoBit(data, probes as bv8, h, i);
      }
    }
  }

  lemma LastByteIsNoBit(data: seq<bv8>, last: bv8, hash: nat, i: nat)
    requires |data| >= 2
    ensures Hit(data, hash, i) <==> Hit(data[|data| - 1 := last], hash, i)
  {
    Probed(data, hash, i);
  }
}
