/** Byte strings and the order the engine sorts keys by. */
module Keys {

  newtype byte = x: int | 0 <= x < 256

  /** A key or a value: an arbitrary byte string. */
  type Bytes = seq<byte>

  /** Byte-wise lexicographic order, a proper prefix sorting first. */
  predicate Less(a: Bytes, b: Bytes) {
    if b == [] then false
    else if a == [] then true
    else a[0] < b[0] || (a[0] == b[0] && Less(a[1..], b[1..]))
  }

  predicate AtMost(a: Bytes, b: Bytes) {
    !Less(b, a)
  }

  /** A position on the real line: the digits of the key in base 257, so a missing digit sorts below every byte. */
  ghost function Rank(k: Bytes): (r: real)
    ensures 0.0 <= r < 1.0
    ensures k != [] ==> r > 0.0
  {
    if k == [] then 0.0 else ((k[0] as int) as real + 1.0 + Rank(k[1..])) / 257.0
  }

  /** Comparing keys is comparing their ranks, and distinct keys have distinct ranks. */
  lemma {:induction false} RankOrder(a: Bytes, b: Bytes)
    ensures Less(a, b) <==> Rank(a) < Rank(b)
    ensures a == b <==> Rank(a) == Rank(b)
  {
    if a != [] && b != [] {
      RankOrder(a[1..], b[1..]);
      assert a == [a[0]] + a[1..] && b == [b[0]] + b[1..];
      var x, y := (a[0] as int), (b[0] as int);
      if x < y {
        assert x as real + 1.0 <= y as real;
      } else if y < x {
        assert y as real + 1.0 <= x as real;
      }
    }
  }

  /** Everything the other proofs use about the order: it is the order of the ranks. */
  lemma KeyOrder()
    ensures forall a: Bytes, b: Bytes {:trigger Less(a, b)} :: Less(a, b) <==> Rank(a) < Rank(b)
    ensures forall a: Bytes, b: Bytes {:trigger Rank(a), Rank(b)} :: Rank(a) == Rank(b) ==> a == b
  {
    forall a: Bytes, b: Bytes
      ensures Less(a, b) <==> Rank(a) < Rank(b)
      ensures Rank(a) == Rank(b) ==> a == b
    {
      RankOrder(a, b);
    }
  }

  /** The order is total and strict. */
  lemma TotalOrder(a: Bytes, b: Bytes, c: Bytes)
    ensures !Less(a, a)
    ensures Less(a, b) || a == b || Less(b, a)
    ensures Less(a, b) ==> !Less(b, a)
    ensures Less(a, b) && Less(b, c) ==> Less(a, c)
  {
    KeyOrder();
  }
}
