/**
 * CRC-32 of IEEE 802.3 (section 3.2.9, Frame Check Sequence), and the slice-by-eight form that computes it eight
 * bytes at a time from precomputed tables.
 */
module Checksum {
  const POLYNOMIAL: bv32 := 0xEDB8_8320
  const INIT: bv32 := 0xFFFF_FFFF
  const STRIDE: nat := 8

  function Xor(a: bv32, b: bv32): bv32 {
    a ^ b
  }

  // ---- The definition: one message bit at a time, least significant bit of each byte first ----

  /** The register after a zero bit. */
  function Shift(c: bv32): bv32 {
    if c & 1 == 1 then (c >> 1) ^ POLYNOMIAL else c >> 1
  }

  /** The register after the `n` low bits of `b`. */
  function FeedBits(c: bv32, b: bv32, n: nat): bv32
    decreases n
  {
    if n == 0 then c else FeedBits(Shift(Xor(c, b & 1)), b >> 1, n - 1)
  }

  function Serial(c: bv32, bytes: seq<bv8>): bv32 {
    if bytes == [] then c
    else FeedBits(Serial(c, bytes[..|bytes| - 1]), bytes[|bytes| - 1] as bv32, 8)
  }

  function Crc(bytes: seq<bv8>): bv32 {
    !Serial(INIT, bytes)
  }

  lemma {:induction false} SerialSplits(c: bv32, a: seq<bv8>, b: seq<bv8>)
    ensures Serial(c, a + b) == Serial(Serial(c, a), b)
  {
    hide FeedBits;
    if b == [] {
      assert a + b == a;
    } else {
      var n := |b| - 1;
      SerialSplits(c, a, b[..n]);
      assert (a + b)[..|a + b| - 1] == a + b[..n];
    }
  }

  // ---- Facts about 32-bit words ----

  lemma XorAssociates(a: bv32, b: bv32, c: bv32)
    ensures Xor(Xor(a, b), c) == Xor(a, Xor(b, c))
  {
    assert (a ^ b) ^ c == a ^ (b ^ c);
  }

  lemma XorZero(a: bv32)
    ensures Xor(a, 0) == a
  {
  }

  lemma XorCommutes(a: bv32, b: bv32)
    ensures Xor(a, b) == Xor(b, a)
  {
  }

  lemma XorLast(a: bv32, b: bv32, p: bv32)
    ensures Xor(Xor(a, p), b) == Xor(Xor(a, b), p)
  {
    hide Xor;
    XorAssociates(a, p, b);
    XorCommutes(p, b);
    XorAssociates(a, b, p);
  }

  lemma XorTwice(a: bv32, b: bv32, p: bv32)
    ensures Xor(Xor(a, p), Xor(b, p)) == Xor(a, b)
  {
    assert (a ^ p) ^ (b ^ p) == a ^ b;
  }

  lemma Halves(a: bv32, b: bv32)
    ensures (a ^ b) >> 1 == (a >> 1) ^ (b >> 1)
  {
  }

  lemma XorHalves(a: bv32, b: bv32)
    ensures Xor(a, b) >> 1 == Xor(a >> 1, b >> 1)
  {
    var x, y, z := a >> 1, b >> 1, a ^ b;
    assert z >> 1 == x ^ y by {
      Halves(a, b);
    }
  }

  lemma XorParity(a: bv32, b: bv32)
    ensures Xor(a, b) & 1 == 1 <==> (a & 1 == 1) != (b & 1 == 1)
  {
  }

  lemma ShiftUnfolds(c: bv32)
    ensures Shift(c) == if c & 1 == 1 then Xor(c >> 1, POLYNOMIAL) else c >> 1
  {
  }

  lemma ShiftIsLinear(a: bv32, b: bv32)
    ensures Shift(Xor(a, b)) == Xor(Shift(a), Shift(b))
  {
    hide Shift, Xor;
    ShiftUnfolds(a);
    ShiftUnfolds(b);
    ShiftUnfolds(Xor(a, b));
    XorHalves(a, b);
    XorParity(a, b);
    XorTwice(a >> 1, b >> 1, POLYNOMIAL);
    XorLast(a >> 1, b >> 1, POLYNOMIAL);
    XorAssociates(a >> 1, b >> 1, POLYNOMIAL);
  }

  lemma ShiftOfEven(c: bv32)
    requires c & 1 == 0
    ensures Shift(c) == c >> 1
  {
  }

  lemma SplitLowBit(b: bv32)
    ensures Xor(b & 1, b & 0xFFFF_FFFE) == b
    ensures (b & 0xFFFF_FFFE) & 1 == 0 && (b & 0xFFFF_FFFE) >> 1 == b >> 1
  {
  }

  lemma SplitLowByte(c: bv32)
    ensures Xor(c & 0xFFFF_FF00, c & 0xFF) == c
    ensures (c & 0xFFFF_FF00) & 0xFF == 0 && (c & 0xFFFF_FF00) >> 8 == c >> 8
  {
  }

  lemma ClearBits(c: bv32)
    ensures c & 3 == 0 ==> c & 1 == 0 && (c >> 1) & 1 == 0 && (c >> 1) >> 1 == c >> 2
    ensures c & 0xF == 0 ==> c & 3 == 0 && (c >> 2) & 3 == 0 && (c >> 2) >> 2 == c >> 4
    ensures c & 0xFF == 0 ==> c & 0xF == 0 && (c >> 4) & 0xF == 0 && (c >> 4) >> 4 == c >> 8
  {
  }

  // ---- Many shifts at once ----

  function Shifts(c: bv32, n: nat): bv32
    decreases n
  {
    if n == 0 then c else Shifts(Shift(c), n - 1)
  }

  lemma {:induction false} ShiftsAreLinear(a: bv32, b: bv32, n: nat)
    ensures Shifts(Xor(a, b), n) == Xor(Shifts(a, n), Shifts(b, n))
    decreases n
  {
    hide Shift, Xor;
    if n > 0 {
      ShiftIsLinear(a, b);
      ShiftsAreLinear(Shift(a), Shift(b), n - 1);
    }
  }

  lemma {:induction false} ShiftsAdd(c: bv32, m: nat, n: nat)
    ensures Shifts(c, m + n) == Shifts(Shifts(c, m), n)
    decreases m
  {
    hide Shift;
    if m > 0 {
      ShiftsAdd(Shift(c), m - 1, n);
    }
  }

  // ---- A byte at a time ----

  predicate Fits(b: bv32, n: nat)
    decreases n
  {
    if n == 0 then b == 0 else Fits(b >> 1, n - 1)
  }

  lemma BytesFit(b: bv32)
    requires b < 256
    ensures Fits(b, 8)
  {
    assert Fits(b >> 7, 1);
    assert Fits(b >> 6, 2);
    assert Fits(b >> 5, 3);
    assert Fits(b >> 4, 4);
    assert Fits(b >> 3, 5);
    assert Fits(b >> 2, 6);
    assert Fits(b >> 1, 7);
  }

  /** What is xored in above the lowest bit is still there after a shift, one place lower. */
  lemma ShiftCarries(c: bv32, b: bv32)
    ensures Shift(Xor(c, b)) == Xor(Shift(Xor(c, b & 1)), b >> 1)
  {
    hide Shift, Xor;
    var high := b & 0xFFFF_FFFE;
    SplitLowBit(b);
    XorAssociates(c, b & 1, high);
    ShiftIsLinear(Xor(c, b & 1), high);
    ShiftOfEven(high);
  }

  /** Feeding bits one by one is xoring them in at once and shifting. */
  lemma {:induction false} BitsAtOnce(c: bv32, b: bv32, n: nat)
    requires Fits(b, n)
    ensures FeedBits(c, b, n) == Shifts(Xor(c, b), n)
    decreases n
  {
    hide Shift, Xor;
    if n == 0 {
      XorZero(c);
    } else {
      BitsAtOnce(Shift(Xor(c, b & 1)), b >> 1, n - 1);
      ShiftCarries(c, b);
    }
  }

  lemma TwoShiftsOfClear(c: bv32)
    requires c & 3 == 0
    ensures Shifts(c, 2) == c >> 2
  {
    hide Shift;
    ClearBits(c);
    ShiftOfEven(c);
    ShiftOfEven(c >> 1);
  }

  lemma FourShiftsOfClear(c: bv32)
    requires c & 0xF == 0
    ensures Shifts(c, 4) == c >> 4
  {
    hide Shifts;
    ClearBits(c);
    TwoShiftsOfClear(c);
    TwoShiftsOfClear(c >> 2);
    ShiftsAdd(c, 2, 2);
  }

  /** While the low byte is clear, eight shifts drop it. */
  lemma ShiftsOfClear(c: bv32)
    requires c & 0xFF == 0
    ensures Shifts(c, 8) == c >> 8
  {
    hide Shifts;
    ClearBits(c);
    FourShiftsOfClear(c);
    FourShiftsOfClear(c >> 4);
    ShiftsAdd(c, 4, 4);
  }

  /** Eight shifts: what the low byte turns into, on top of the rest moved down. */
  lemma ShiftsByLowByte(c: bv32)
    ensures Shifts(c, 8) == Xor(c >> 8, Shifts(c & 0xFF, 8))
  {
    hide Shifts, Xor;
    SplitLowByte(c);
    ShiftsOfClear(c & 0xFFFF_FF00);
    ShiftsAreLinear(c & 0xFFFF_FF00, c & 0xFF, 8);
  }

  lemma ByteAtOnce(c: bv32, b: bv8)
    ensures FeedBits(c, b as bv32, 8) == Shifts(Xor(c, b as bv32), 8)
  {
    hide FeedBits, Shifts, Xor, Fits;
    BytesFit(b as bv32);
    BitsAtOnce(c, b as bv32, 8);
  }

  // ---- Four bytes at a time ----

  lemma PlacedByte(b: bv32)
    requires b < 256
    ensures (b << 8) & 0xFF == 0 && (b << 16) & 0xFF == 0 && (b << 24) & 0xFF == 0
    ensures (b << 8) >> 8 == b && (b << 16) >> 8 == b << 8 && (b << 24) >> 8 == b << 16
  {
  }

  /** A byte placed higher up reaches the low end after as many shifts. */
  lemma ByteSlides(b: bv32)
    requires b < 256
    ensures Shifts(b << 8, 8) == b
    ensures Shifts(b << 16, 16) == b
    ensures Shifts(b << 24, 24) == b
  {
    hide Shifts;
    PlacedByte(b);
    ShiftsOfClear(b << 8);
    ShiftsOfClear(b << 16);
    ShiftsOfClear(b << 24);
    ShiftsAdd(b << 16, 8, 8);
    ShiftsAdd(b << 24, 8, 16);
  }

  /** One more byte after `n` shifts is the byte xored in further up and eight shifts more. */
  lemma NextByte(c: bv32, high: bv32, b: bv32, n: nat)
    requires Shifts(high, n) == b
    ensures Shifts(Xor(Shifts(c, n), b), 8) == Shifts(Xor(c, high), n + 8)
  {
    hide Shifts, Xor;
    ShiftsAreLinear(c, high, n);
    ShiftsAdd(Xor(c, high), n, 8);
  }

  function Word(b0: bv8, b1: bv8, b2: bv8, b3: bv8): bv32 {
    Xor(Xor(Xor(b0 as bv32, (b1 as bv32) << 8), (b2 as bv32) << 16), (b3 as bv32) << 24)
  }

  lemma WordXored(c: bv32, b0: bv8, b1: bv8, b2: bv8, b3: bv8)
    ensures Xor(Xor(Xor(Xor(c, b0 as bv32), (b1 as bv32) << 8), (b2 as bv32) << 16), (b3 as bv32) << 24)
            == Xor(c, Word(b0, b1, b2, b3))
  {
  }

  lemma FourBytes(c: bv32, b0: bv8, b1: bv8, b2: bv8, b3: bv8)
    ensures Serial(c, [b0, b1, b2, b3]) == Shifts(Xor(c, Word(b0, b1, b2, b3)), 32)
  {
    hide FeedBits, Shifts, Serial, Xor;
    var c1 := Xor(c, b0 as bv32);
    var c2 := Xor(c1, (b1 as bv32) << 8);
    var c3 := Xor(c2, (b2 as bv32) << 16);
    NothingFed(c);
    OneByte(c, [], b0);
    OneByte(c, [b0], b1);
    OneByte(c, [b0, b1], b2);
    OneByte(c, [b0, b1, b2], b3);
    assert [] + [b0] == [b0] && [b0] + [b1] == [b0, b1] && [b0, b1] + [b2] == [b0, b1, b2]
           && [b0, b1, b2] + [b3] == [b0, b1, b2, b3];
    ByteSlides(b1 as bv32);
    ByteSlides(b2 as bv32);
    ByteSlides(b3 as bv32);
    NextByte(c1, (b1 as bv32) << 8, b1 as bv32, 8);
    NextByte(c2, (b2 as bv32) << 16, b2 as bv32, 16);
    NextByte(c3, (b3 as bv32) << 24, b3 as bv32, 24);
    WordXored(c, b0, b1, b2, b3);
  }

  lemma OneByte(c: bv32, before: seq<bv8>, b: bv8)
    ensures Serial(c, before + [b]) == Shifts(Xor(Serial(c, before), b as bv32), 8)
  {
    hide FeedBits, Shifts, Xor;
    assert (before + [b])[..|before|] == before;
    ByteAtOnce(Serial(c, before), b);
  }

  lemma NothingFed(c: bv32)
    ensures Serial(c, []) == c
  {
  }

  // ---- Eight bytes at a time ----

  function Xor4(a: bv32, b: bv32, c: bv32, d: bv32): bv32 {
    Xor(Xor(Xor(a, b), c), d)
  }

  lemma Xor4Backwards(a: bv32, b: bv32, c: bv32, d: bv32)
    ensures Xor4(d, c, b, a) == Xor4(a, b, c, d)
  {
    hide Xor;
    XorCommutes(d, c);
    XorLast(Xor(c, d), a, b);
    XorLast(c, a, d);
    XorCommutes(c, a);
    XorLast(Xor(a, c), b, d);
    XorLast(a, b, c);
  }

  /** Shifting past the low byte splits it off. */
  lemma LowByteLeaves(w: bv32, n: nat)
    ensures Shifts(w, n + 8) == Xor(Shifts(w >> 8, n), Shifts(w & 0xFF, n + 8))
  {
    hide Shifts, Xor;
    ShiftsAdd(w, 8, n);
    ShiftsByLowByte(w);
    ShiftsAreLinear(w >> 8, Shifts(w & 0xFF, 8), n);
    ShiftsAdd(w & 0xFF, 8, n);
  }

  function Low(w: bv32): bv32 {
    w & 0xFF
  }

  function Rest(w: bv32): bv32 {
    w >> 8
  }

  lemma BytesOf(w: bv32)
    ensures Low(Rest(w)) == (w >> 8) & 0xFF
    ensures Low(Rest(Rest(w))) == (w >> 16) & 0xFF
    ensures Low(Rest(Rest(Rest(w)))) == (w >> 24) & 0xFF
    ensures Low(Rest(Rest(Rest(w)))) == Rest(Rest(Rest(w)))
  {
  }

  lemma LowLeaves(w: bv32, n: nat)
    ensures Shifts(w, n + 8) == Xor(Shifts(Rest(w), n), Shifts(Low(w), n + 8))
  {
    hide Shifts, Xor;
    LowByteLeaves(w, n);
  }

  /** What a word turns into, byte by byte. */
  lemma WordByBytes(w: bv32, n: nat)
    ensures Shifts(w, n + 32)
            == Xor4(Shifts(Low(w), n + 32), Shifts(Low(Rest(w)), n + 24), Shifts(Low(Rest(Rest(w))), n + 16),
                    Shifts(Low(Rest(Rest(Rest(w)))), n + 8))
  {
    hide Shifts, Xor, Low, Rest;
    var w1 := Rest(w);
    var w2 := Rest(w1);
    BytesOf(w);
    LowLeaves(w, n + 24);
    LowLeaves(w1, n + 16);
    LowLeaves(w2, n + 8);
    Xor4Backwards(Shifts(Low(w), n + 32), Shifts(Low(w1), n + 24), Shifts(Low(w2), n + 16),
                  Shifts(Low(Rest(w2)), n + 8));
  }

  lemma EightBytes(c: bv32, first: seq<bv8>, second: seq<bv8>)
    requires |first| == 4 && |second| == 4
    ensures var head := Xor(c, Word(first[0], first[1], first[2], first[3]));
            var tail := Word(second[0], second[1], second[2], second[3]);
            Serial(c, first + second) == Xor(Shifts(head, 64), Shifts(tail, 32))
  {
    hide Shifts, Xor, Serial, Word;
    var head := Xor(c, Word(first[0], first[1], first[2], first[3]));
    var tail := Word(second[0], second[1], second[2], second[3]);
    assert first == [first[0], first[1], first[2], first[3]] && second == [second[0], second[1], second[2], second[3]];
    SerialSplits(c, first, second);
    FourBytes(c, first[0], first[1], first[2], first[3]);
    FourBytes(Serial(c, first), second[0], second[1], second[2], second[3]);
    ShiftsAreLinear(Shifts(head, 32), tail, 32);
    ShiftsAdd(head, 32, 32);
  }

  lemma OrIsWord(b0: bv8, b1: bv8, b2: bv8, b3: bv8)
    ensures (b0 as bv32) | ((b1 as bv32) << 8) | ((b2 as bv32) << 16) | ((b3 as bv32) << 24) == Word(b0, b1, b2, b3)
  {
  }

  // ---- The tables ----

  /** Table `k` answers what a byte contributes after `k` more bytes. */
  ghost predicate Built(tables: array2<bv32>)
    reads tables
  {
    && tables.Length0 == STRIDE && tables.Length1 == 256
    && forall k: nat | k < STRIDE :: Row(tables, k, 256)
  }

  ghost predicate Row(tables: array2<bv32>, k: nat, n: nat)
    requires k < tables.Length0 && n <= tables.Length1 == 256
    reads tables
  {
    forall b: nat | b < n :: tables[k, b] == Shifts(b as bv32, 8 * (k + 1))
  }

  lemma IndexRoundTrip(x: bv32)
    requires x < 256
    ensures x as int < 256 && (x as int) as bv32 == x
  {
    var n := x as int;
    assert (n as bv8) as bv32 == n as bv32;
    assert (x as bv8) as int == n;
    assert (n as bv8) as int == n;
    assert (x as bv8) as bv32 == x;
  }

  method BuildTables() returns (tables: array2<bv32>)
    ensures Built(tables) && fresh(tables)
  {
    hide Shifts;
    tables := new bv32[STRIDE, 256];
    FillFirst(tables);
    var table := 1;
    while table < STRIDE
      invariant 1 <= table <= STRIDE
      invariant forall k: nat | k < table :: Row(tables, k, 256)
    {
      assert Row(tables, 0, 256) && Row(tables, table - 1, 256);
      CarryRow(tables, table);
      table := table + 1;
    }
  }

  /** The first table: each byte shifted through, one bit at a time. */
  method FillFirst(tables: array2<bv32>)
    requires tables.Length0 == STRIDE && tables.Length1 == 256
    modifies tables
    ensures Row(tables, 0, 256)
  {
    hide Shifts;
    var b := 0;
    while b < 256
      invariant 0 <= b <= 256
      invariant Row(tables, 0, b)
    {
      var crc := b as bv32;
      var bit := 0;
      Unshifted(crc);
      while bit < 8
        invariant 0 <= bit <= 8
        invariant crc == Shifts(b as bv32, bit) && Row(tables, 0, b)
      {
        OneShift(b as bv32, bit);
        crc := if crc & 1 == 1 then (crc >> 1) ^ POLYNOMIAL else crc >> 1;
        bit := bit + 1;
      }
      tables[0, b] := crc;
      assert tables[0, b] == Shifts(b as bv32, 8 * (0 + 1));
      b := b + 1;
    }
  }

  /** A table from the one before it, by shifting every entry through eight more bits. */
  method CarryRow(tables: array2<bv32>, table: nat)
    requires tables.Length0 == STRIDE && tables.Length1 == 256 && 1 <= table < STRIDE
    requires Row(tables, 0, 256) && Row(tables, table - 1, 256)
    modifies tables
    ensures Row(tables, table, 256)
    ensures forall k: nat | k < table && old(Row(tables, k, 256)) :: Row(tables, k, 256)
  {
    hide Shifts, Xor;
    var b := 0;
    while b < 256
      invariant 0 <= b <= 256
      invariant forall k: nat, c: nat | k < table && c < 256 :: tables[k, c] == old(tables[k, c])
      invariant Row(tables, table, b)
    {
      var carried := tables[table - 1, b];
      IndexRoundTrip(carried & 0xFF);
      CarriedOn(b as bv32, table, carried);
      tables[table, b] := Xor(carried >> 8, tables[0, (carried & 0xFF) as int]);
      b := b + 1;
    }
  }

  lemma Unshifted(c: bv32)
    ensures Shifts(c, 0) == c
  {
  }

  lemma OneShift(c: bv32, n: nat)
    ensures Shifts(c, n + 1) == Shift(Shifts(c, n))
  {
    hide Shift;
    ShiftsAdd(c, n, 1);
  }

  lemma CarriedOn(b: bv32, k: nat, carried: bv32)
    requires carried == Shifts(b, 8 * k)
    ensures Shifts(b, 8 * (k + 1)) == Xor(carried >> 8, Shifts(carried & 0xFF, 8))
  {
    hide Shifts;
    ShiftsAdd(b, 8 * k, 8);
    ShiftsByLowByte(carried);
  }

  // ---- The checksum ----

  /** The register after `bytes`, eight at a time while there are eight. */
  method Update(tables: array2<bv32>, start: bv32, bytes: seq<bv8>) returns (crc: bv32)
    requires Built(tables)
    ensures crc == Serial(start, bytes)
  {
    hide Shifts, Serial, Xor, Word, Built;
    crc := start;
    var i := 0;
    NothingFed(start);
    while i + STRIDE <= |bytes|
      invariant 0 <= i <= |bytes| && crc == Serial(start, bytes[..i])
    {
      crc := Stride(tables, crc, bytes[i..i + 4], bytes[i + 4..i + 8]);
      SerialSplits(start, bytes[..i], bytes[i..i + 4] + bytes[i + 4..i + 8]);
      assert bytes[..i] + (bytes[i..i + 4] + bytes[i + 4..i + 8]) == bytes[..i + 8];
      i := i + STRIDE;
    }
    while i < |bytes|
      invariant 0 <= i <= |bytes| && crc == Serial(start, bytes[..i])
    {
      crc := Single(tables, crc, bytes[i]);
      OneByte(start, bytes[..i], bytes[i]);
      assert bytes[..i] + [bytes[i]] == bytes[..i + 1];
      i := i + 1;
    }
    assert bytes[..i] == bytes;
  }

  method Stride(tables: array2<bv32>, crc: bv32, first: seq<bv8>, second: seq<bv8>) returns (next: bv32)
    requires Built(tables) && |first| == 4 && |second| == 4
    ensures next == Serial(crc, first + second)
  {
    hide Shifts, Serial, Xor, Built, Low, Rest;
    var head := Xor(Xor(Xor(Xor(crc, first[0] as bv32), (first[1] as bv32) << 8), (first[2] as bv32) << 16),
                    (first[3] as bv32) << 24);
    var tail := (second[0] as bv32) | ((second[1] as bv32) << 8)
                | ((second[2] as bv32) << 16) | ((second[3] as bv32) << 24);
    WordXored(crc, first[0], first[1], first[2], first[3]);
    OrIsWord(second[0], second[1], second[2], second[3]);
    EightBytes(crc, first, second);
    next := Contributions(tables, head, tail);
  }

  method Lookup(tables: array2<bv32>, k: nat, index: bv32) returns (r: bv32)
    requires Built(tables) && k < STRIDE && index < 256
    ensures r == Shifts(index, 8 * (k + 1))
  {
    hide Shifts;
    IndexRoundTrip(index);
    assert Row(tables, k, 256);
    r := tables[k, index as int];
  }

  /** The eight independent lookups. */
  method Contributions(tables: array2<bv32>, head: bv32, tail: bv32) returns (next: bv32)
    requires Built(tables)
    ensures next == Xor(Shifts(head, 64), Shifts(tail, 32))
  {
    hide Shifts, Xor, Low, Rest, Built;
    BytesOf(head);
    BytesOf(tail);
    WordByBytes(head, 32);
    WordByBytes(tail, 0);
    LowIs(head);
    LowIs(tail);
    var h7 := Lookup(tables, 7, head & 0xFF);
    var h6 := Lookup(tables, 6, (head >> 8) & 0xFF);
    var h5 := Lookup(tables, 5, (head >> 16) & 0xFF);
    var h4 := Lookup(tables, 4, (head >> 24) & 0xFF);
    var t3 := Lookup(tables, 3, tail & 0xFF);
    var t2 := Lookup(tables, 2, (tail >> 8) & 0xFF);
    var t1 := Lookup(tables, 1, (tail >> 16) & 0xFF);
    var t0 := Lookup(tables, 0, (tail >> 24) & 0xFF);
    next := Xor(Xor(Xor(Xor(Xor4(h7, h6, h5, h4), t3), t2), t1), t0);
    Regroup(Xor4(h7, h6, h5, h4), t3, t2, t1, t0);
  }

  lemma LowIs(w: bv32)
    ensures Low(w) == w & 0xFF
  {
  }

  lemma Regroup(h: bv32, a: bv32, b: bv32, c: bv32, d: bv32)
    ensures Xor(Xor(Xor(Xor(h, a), b), c), d) == Xor(h, Xor4(a, b, c, d))
  {
    hide Xor;
    XorAssociates(h, a, b);
    XorAssociates(h, Xor(a, b), c);
    XorAssociates(h, Xor(Xor(a, b), c), d);
  }

  method Single(tables: array2<bv32>, crc: bv32, b: bv8) returns (next: bv32)
    requires Built(tables)
    ensures next == Shifts(Xor(crc, b as bv32), 8)
  {
    hide Shifts, Xor;
    var x := Xor(crc, b as bv32);
    ShiftsByLowByte(x);
    SameHigh(crc, b as bv32);
    var carried := Lookup(tables, 0, x & 0xFF);
    next := Xor(crc >> 8, carried);
  }

  lemma SameHigh(c: bv32, b: bv32)
    requires b < 256
    ensures Xor(c, b) >> 8 == c >> 8
  {
  }

  method Crc32(bytes: seq<bv8>) returns (crc: bv32)
    ensures crc == Crc(bytes)
  {
    hide Serial;
    var tables := BuildTables();
    var c := Update(tables, INIT, bytes);
    crc := !c;
  }

  /** Two parts read back separately check like the whole. */
  method Crc32Parts(first: seq<bv8>, second: seq<bv8>) returns (crc: bv32)
    ensures crc == Crc(first + second)
  {
    hide Serial;
    var tables := BuildTables();
    var c := Update(tables, INIT, first);
    c := Update(tables, c, second);
    SerialSplits(INIT, first, second);
    crc := !c;
  }
}
