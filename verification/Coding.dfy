/** The framing every on-disk format is built from: little-endian integers and length-prefixed byte strings. */
module Coding {
  import opened Bounds
  import opened Keys
  import opened Versions


  function Pow256(n: nat): nat {
    if n == 0 then 1 else 256 * Pow256(n - 1)
  }

  /** `n` in `width` bytes, least significant first. */
  function Le(n: nat, width: nat): (r: Bytes)
    ensures |r| == width
    decreases width
  {
    if width == 0 then [] else [(n % 256) as byte] + Le(n / 256, width - 1)
  }

  function FromLe(b: Bytes): nat {
    if b == [] then 0 else b[0] as nat + 256 * FromLe(b[1..])
  }

  lemma {:induction false} LeRoundTrip(n: nat, width: nat)
    requires n < Pow256(width)
    ensures FromLe(Le(n, width)) == n
    decreases width
  {
    if width > 0 {
      assert n / 256 < Pow256(width - 1);
      LeRoundTrip(n / 256, width - 1);
      assert Le(n, width)[1..] == Le(n / 256, width - 1);
    }
  }

  lemma DigitOff(low: byte, high: nat)
    ensures var n := low as nat + 256 * high; (n % 256) as byte == low && n / 256 == high
  {
  }

  lemma {:induction false} FromLeRoundTrip(b: Bytes)
    ensures FromLe(b) < Pow256(|b|) && Le(FromLe(b), |b|) == b
  {
    if b != [] {
      FromLeRoundTrip(b[1..]);
      DigitOff(b[0], FromLe(b[1..]));
      assert b == [b[0]] + b[1..];
    }
  }

  lemma Widths()
    ensures Pow256(4) == U32_MAX + 1 && Pow256(8) == U64_MAX + 1 && Pow256(1) == 256
  {
    assert Pow256(2) == 65536 && Pow256(3) == 16777216;
    assert Pow256(5) == 1099511627776 && Pow256(6) == 281474976710656 && Pow256(7) == 72057594037927936;
  }

  // ---- Reading off the front of a cursor; None where the input is too short ----

  function Take(cursor: Bytes, len: nat): Option<(Bytes, Bytes)> {
    if len <= |cursor| then Some((cursor[..len], cursor[len..])) else None
  }

  function TakeInt(cursor: Bytes, width: nat): Option<(nat, Bytes)> {
    match Take(cursor, width)
    case None => None
    case Some((head, rest)) => Some((FromLe(head), rest))
  }

  function TakeField(cursor: Bytes): Option<(Bytes, Bytes)> {
    match TakeInt(cursor, 4)
    case None => None
    case Some((len, rest)) => Take(rest, len)
  }

  /** A byte string behind its length. */
  function Field(b: Bytes): (r: Bytes)
    ensures |r| == 4 + |b|
  {
    Le(|b|, 4) + b
  }

  lemma TakesInt(n: nat, width: nat, rest: Bytes)
    requires n < Pow256(width)
    ensures TakeInt(Le(n, width) + rest, width) == Some((n, rest))
  {
    var c := Le(n, width) + rest;
    assert c[..width] == Le(n, width) && c[width..] == rest;
    LeRoundTrip(n, width);
  }

  lemma TakesField(b: Bytes, rest: Bytes)
    requires |b| <= U32_MAX
    ensures TakeField(Field(b) + rest) == Some((b, rest))
  {
    Widths();
    assert Field(b) + rest == Le(|b|, 4) + (b + rest);
    TakesInt(|b|, 4, b + rest);
    assert (b + rest)[..|b|] == b && (b + rest)[|b|..] == rest;
  }

  /** What was taken is exactly what its encoding puts back. */
  lemma IntTaken(cursor: Bytes, width: nat)
    ensures var t := TakeInt(cursor, width);
            t.Some? ==> t.value.0 < Pow256(width) && cursor == Le(t.value.0, width) + t.value.1
  {
    if width <= |cursor| {
      FromLeRoundTrip(cursor[..width]);
      assert cursor == cursor[..width] + cursor[width..];
    }
  }

  lemma FieldTaken(cursor: Bytes)
    ensures var t := TakeField(cursor);
            t.Some? ==> |t.value.0| <= U32_MAX && cursor == Field(t.value.0) + t.value.1
  {
    Widths();
    IntTaken(cursor, 4);
    var t := TakeField(cursor);
    if t.Some? {
      var rest := TakeInt(cursor, 4).value.1;
      assert rest == t.value.0 + t.value.1;
      assert cursor == Le(|t.value.0|, 4) + (t.value.0 + t.value.1);
    }
  }

  lemma Associates(a: Bytes, b: Bytes, c: Bytes)
    ensures (a + b) + c == a + (b + c)
  {
  }
}
