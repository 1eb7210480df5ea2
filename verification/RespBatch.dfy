/** Requests survive encoding, and a stream of them is read the same however it is split into reads. */
module RespBatch {
  import opened Keys
  import opened Versions
  import opened Resp

  // ---- Encoding a command ----

  function Decimal(n: nat): (r: Bytes)
    ensures |r| > 0 && forall i | 0 <= i < |r| :: IsDigit(r[i])
  {
    var last := [ZERO + (n % 10) as byte];
    if n < 10 then last else Decimal(n / 10) + last
  }

  function Crlf(): Bytes {
    [CR, LF]
  }

  function EncodeBulk(bytes: Bytes): Bytes {
    [DOLLAR] + (Decimal(|bytes|) + (Crlf() + (bytes + Crlf())))
  }

  function EncodeArgs(args: seq<Bytes>): Bytes {
    if args == [] then [] else EncodeBulk(args[0]) + EncodeArgs(args[1..])
  }

  /** A command as a client sends it. */
  function Encode(args: seq<Bytes>): Bytes {
    [STAR] + (Decimal(|args|) + (Crlf() + EncodeArgs(args)))
  }

  ghost predicate WithinLimits(args: seq<Bytes>) {
    1 <= |args| <= MAX_ARGS && forall i | 0 <= i < |args| :: |args[i]| <= MAX_BULK
  }

  lemma {:induction false} DigitsOfDecimal(n: nat)
    ensures Digits(Decimal(n)) == Some(n)
  {
    var d := Decimal(n);
    var last := ZERO + (n % 10) as byte;
    if n < 10 {
      assert d[..0] == [];
    } else {
      DigitsOfDecimal(n / 10);
      assert d[..|d| - 1] == Decimal(n / 10) && d[|d| - 1] == last;
    }
  }

  lemma IntegerOfDecimal(n: nat)
    requires n <= I64_MAX
    ensures Integer(Decimal(n)) == Some(n)
  {
    DigitsOfDecimal(n);
    assert IsDigit(Decimal(n)[0]);
  }

  /** A line without a carriage return ends where its end was put. */
  lemma {:induction false} FindsEnd(input: Bytes, i: nat, n: nat)
    requires i <= n && n + 2 <= |input| && input[n] == CR && input[n + 1] == LF
    requires forall k | i <= k < n :: input[k] != CR
    ensures FindCrlf(input, i) == Some(n)
    decreases n - i
  {
    if i < n {
      FindsEnd(input, i + 1, n);
    }
  }

  lemma ReadsLine(input: Bytes, pre: Bytes, text: Bytes, rest: Bytes)
    requires input == pre + (text + (Crlf() + rest)) && forall i | 0 <= i < |text| :: text[i] != CR
    ensures Line(input, |pre|) == Some((text, |pre| + |text| + 2))
  {
    var n := |pre| + |text|;
    assert input[n] == CR && input[n + 1] == LF;
    assert forall k | |pre| <= k < n :: input[k] == text[k - |pre|];
    FindsEnd(input, |pre|, n);
    assert input[|pre|..n] == text;
  }

  lemma ReadsBulk(input: Bytes, pre: Bytes, bytes: Bytes, rest: Bytes)
    requires input == pre + (EncodeBulk(bytes) + rest) && |bytes| <= MAX_BULK
    ensures ReadBulk(input, |pre|) == Bulk(bytes, |pre| + |EncodeBulk(bytes)|)
  {
    hide Integer, Line, Decimal, EncodeBulk, Crlf;
    var head := Decimal(|bytes|);
    BulkParts(input, pre, bytes, rest);
    NoReturns(|bytes|);
    ReadsLine(input, pre + [DOLLAR], head, (bytes + Crlf()) + rest);
    IntegerOfDecimal(|bytes|);
  }

  /** Where the parts of an encoded argument sit. */
  lemma BulkParts(input: Bytes, pre: Bytes, bytes: Bytes, rest: Bytes)
    requires input == pre + (EncodeBulk(bytes) + rest)
    ensures input == (pre + [DOLLAR]) + (Decimal(|bytes|) + (Crlf() + ((bytes + Crlf()) + rest)))
    ensures var at := |pre| + 1 + |Decimal(|bytes|)| + 2;
            && |pre| + |EncodeBulk(bytes)| == at + |bytes| + 2 <= |input| && input[|pre|] == DOLLAR
            && input[at..at + |bytes|] == bytes && input[at + |bytes|] == CR && input[at + |bytes| + 1] == LF
  {
    hide Decimal;
    var head := Decimal(|bytes|);
    var at := |pre| + 1 + |head| + 2;
    assert input == (pre + [DOLLAR]) + (head + (Crlf() + ((bytes + Crlf()) + rest)));
    assert input == ((pre + [DOLLAR]) + head + Crlf()) + (bytes + (Crlf() + rest));
    AtPlace((pre + [DOLLAR]) + head + Crlf(), bytes, Crlf() + rest, at);
    assert (Crlf() + rest)[0] == CR && (Crlf() + rest)[1] == LF;
  }

  lemma AtPlace(pre: Bytes, bytes: Bytes, rest: Bytes, at: nat)
    requires at == |pre|
    ensures (pre + (bytes + rest))[at..at + |bytes|] == bytes
    ensures forall i | 0 <= i < |rest| :: (pre + (bytes + rest))[at + |bytes| + i] == rest[i]
  {
  }

  lemma NoReturns(n: nat)
    ensures forall i | 0 <= i < |Decimal(n)| :: Decimal(n)[i] != CR
  {
  }

  lemma {:induction false} ReadsArgs(input: Bytes, pre: Bytes, args: seq<Bytes>, rest: Bytes)
    requires input == pre + (EncodeArgs(args) + rest) && forall i | 0 <= i < |args| :: |args[i]| <= MAX_BULK
    ensures ReadArgs(input, |pre|, |args|) == Args(args, |pre| + |EncodeArgs(args)|)
    decreases |args|
  {
    hide EncodeBulk, ReadBulk;
    if args != [] {
      var first, others := EncodeBulk(args[0]), EncodeArgs(args[1..]);
      assert input == pre + (first + (others + rest));
      ReadsBulk(input, pre, args[0], others + rest);
      assert input == (pre + first) + (others + rest);
      ReadsArgs(input, pre + first, args[1..], rest);
      assert [args[0]] + args[1..] == args;
    }
  }

  /** An encoded command followed by anything is that command, and exactly its length. */
  lemma ParsesEncoded(args: seq<Bytes>, rest: Bytes)
    requires WithinLimits(args)
    ensures Parse(Encode(args) + rest) == Done(Command(Upper(args[0]), args[1..]), |Encode(args)|)
  {
    hide Integer, Line, Decimal, EncodeArgs, ReadArgs;
    var input := Encode(args) + rest;
    var head := Decimal(|args|);
    assert input == [STAR] + (head + (Crlf() + (EncodeArgs(args) + rest)));
    NoReturns(|args|);
    ReadsLine(input, [STAR], head, EncodeArgs(args) + rest);
    IntegerOfDecimal(|args|);
    assert input == ([STAR] + head + Crlf()) + (EncodeArgs(args) + rest);
    ReadsArgs(input, [STAR] + head + Crlf(), args, rest);
  }

  /** Every strict prefix of an encoded command is incomplete. */
  lemma PrefixesAreIncomplete(args: seq<Bytes>, n: nat)
    requires WithinLimits(args) && n < |Encode(args)|
    ensures Parse(Encode(args)[..n]) == More
  {
    hide Parse, Encode;
    var whole := Encode(args);
    assert whole == whole[..n] + whole[n..] && whole + [] == whole;
    ParsesEncoded(args, []);
    ParseStays(whole[..n], whole[n..]);
    StartsWithStar(args, n);
  }

  lemma StartsWithStar(args: seq<Bytes>, n: nat)
    requires n <= |Encode(args)|
    ensures Parse(Encode(args)[..n]).Error? ==> n > 0 && Encode(args)[..n][0] == STAR
  {
  }

  // ---- Batches ----

  /** What a stretch of bytes amounts to: the commands, how far they reach, and what went wrong after them. */
  datatype Batch = Batch(commands: seq<Request>, consumed: nat, error: Option<ProtocolError>)

  function Then(request: Request, used: nat, rest: Batch): Batch {
    Batch((if request.Command? then [request] else []) + rest.commands, used + rest.consumed, rest.error)
  }

  /** All requests the bytes hold whole, one after the other. */
  function TakeAll(input: Bytes): (r: Batch)
    ensures r.consumed <= |input|
    decreases |input|
  {
    match Parse(input)
    case More => Batch([], 0, None)
    case Error(e) => Batch([], 0, Some(e))
    case Done(request, used) => Then(request, used, TakeAll(input[used..]))
  }

  function After(first: Batch, rest: Batch): Batch {
    Batch(first.commands + rest.commands, first.consumed + rest.consumed, rest.error)
  }

  /** The buffer of one connection. */
  class Connection {
    var input: Bytes

    constructor ()
      ensures input == []
    {
      input := [];
    }

    /** Takes every complete request off the buffer and drops the bytes they took. */
    method TakeBatch() returns (commands: seq<Request>, error: Option<ProtocolError>)
      modifies this
      ensures var batch := TakeAll(old(input));
              commands == batch.commands && error == batch.error && input == old(input)[batch.consumed..]
    {
      hide Parse, TakeAll, After;
      commands, error := [], None;
      var consumed: nat := 0;
      assert input[0..] == input;
      ghost var whole := TakeAll(input);
      NothingFirst(whole);
      var more := true;
      while more
        invariant input == old(input) && consumed <= |input| && (more ==> error == None)
        invariant whole == After(Batch(commands, consumed, None), if more then TakeAll(input[consumed..])
                                 else Batch([], 0, error))
        decreases more, |input| - consumed
      {
        var next := Next(input[consumed..]);
        TakeStep(input, commands, consumed);
        if next.Done? {
          if next.request.Command? {
            commands := commands + [next.request];
          }
          consumed := consumed + next.used;
        } else {
          if next.Error? {
            error := Some(next.error);
          }
          more := false;
        }
      }
      EndsWith(commands, consumed, error);
      input := input[consumed..];
    }
  }

  lemma EndsWith(commands: seq<Request>, consumed: nat, error: Option<ProtocolError>)
    ensures After(Batch(commands, consumed, None), Batch([], 0, error)) == Batch(commands, consumed, error)
  {
    assert commands + [] == commands;
  }

  lemma TakeStep(input: Bytes, commands: seq<Request>, consumed: nat)
    requires consumed <= |input|
    ensures var next, done := Parse(input[consumed..]), Batch(commands, consumed, None);
            && (next.More? ==> TakeAll(input[consumed..]) == Batch([], 0, None))
            && (next.Error? ==> TakeAll(input[consumed..]) == Batch([], 0, Some(next.error)))
            && (next.Done? ==> After(done, TakeAll(input[consumed..]))
                               == After(Batch(if next.request.Command? then commands + [next.request] else commands,
                                              consumed + next.used, None), TakeAll(input[consumed + next.used..])))
  {
    hide Parse;
    var next := Parse(input[consumed..]);
    if next.Done? {
      assert input[consumed..][next.used..] == input[consumed + next.used..];
      var rest := TakeAll(input[consumed + next.used..]);
      assert commands + ([next.request] + rest.commands) == (commands + [next.request]) + rest.commands;
      assert [] + rest.commands == rest.commands;
    }
  }

  method Next(input: Bytes) returns (r: Parsed)
    ensures r == Parse(input)
  {
    hide ParseArray, ParseInline;
    if input == [] {
      return More;
    }
    if input[0] == STAR {
      r := ReadArray(input);
    } else {
      r := ParseInline(input);
    }
  }

  /** Every inline line a stream completes ends within the limit an unfinished one is held to. */
  predicate LinesFit(input: Bytes)
    decreases |input|
  {
    match Parse(input)
    case Done(_, used) => (input[0] == STAR || used - 1 <= MAX_INLINE) && LinesFit(input[used..])
    case _ => true
  }

  /** What the bytes so far amount to stays, and the rest picks up where it stopped. */
  lemma {:induction false} TakeAllExtends(a: Bytes, b: Bytes)
    requires LinesFit(a + b)
    ensures var first := TakeAll(a);
            if first.error.Some? then TakeAll(a + b) == first
            else LinesFit(a[first.consumed..] + b) && TakeAll(a + b) == After(first, TakeAll(a[first.consumed..] + b))
    decreases |a|
  {
    hide Parse;
    ParseStays(a, b);
    match Parse(a) {
      case More =>
        assert a[0..] == a;
        NothingFirst(TakeAll(a + b));
      case Error(e) =>
        ErrorHasBytes(a);
        assert (a + b)[0] == a[0];
      case Done(request, used) =>
        assert (a + b)[used..] == a[used..] + b;
        TakeAllExtends(a[used..], b);
        var rest := TakeAll(a[used..]);
        assert a[used..][rest.consumed..] == a[used + rest.consumed..];
        if rest.error.None? {
          ThenAfter(request, used, rest, TakeAll(a[used..][rest.consumed..] + b));
        }
    }
  }

  lemma ErrorHasBytes(a: Bytes)
    ensures Parse(a).Error? ==> a != []
  {
  }

  lemma NothingFirst(batch: Batch)
    ensures After(Batch([], 0, None), batch) == batch
  {
    assert [] + batch.commands == batch.commands;
  }

  lemma ThenAfter(request: Request, used: nat, first: Batch, rest: Batch)
    ensures Then(request, used, After(first, rest)) == After(Then(request, used, first), rest)
  {
  }

  /** Leftover bytes hold no whole request. */
  lemma {:induction false} LeftoverIsIncomplete(input: Bytes)
    requires TakeAll(input).error.None?
    ensures TakeAll(input[TakeAll(input).consumed..]) == Batch([], 0, None)
    decreases |input|
  {
    hide Parse;
    match Parse(input) {
      case More => assert input[0..] == input;
      case Error(e) =>
      case Done(request, used) =>
        LeftoverIsIncomplete(input[used..]);
        assert input[used..][TakeAll(input[used..]).consumed..] == input[TakeAll(input).consumed..];
    }
  }

  // ---- Inline commands ----

  ghost predicate IsWord(w: Bytes) {
    w != [] && forall i | 0 <= i < |w| :: !IsSpace(w[i])
  }

  /** Words on one line, a space between each. */
  function Spaced(words: seq<Bytes>): Bytes {
    if words == [] then []
    else if |words| == 1 then words[0]
    else words[0] + ([32] + Spaced(words[1..]))
  }

  lemma {:induction false} WordRead(w: Bytes, rest: Bytes, read: Bytes)
    requires forall i | 0 <= i < |w| :: !IsSpace(w[i])
    ensures Words(w + rest, read) == Words(rest, read + w)
    decreases |w|
  {
    if w == [] {
      assert w + rest == rest && read + w == read;
    } else {
      assert (w + rest)[0] == w[0] && (w + rest)[1..] == w[1..] + rest;
      WordRead(w[1..], rest, read + [w[0]]);
      assert read + [w[0]] + w[1..] == read + w;
    }
  }

  lemma {:induction false} WordsOfSpaced(words: seq<Bytes>)
    requires forall i | 0 <= i < |words| :: IsWord(words[i])
    ensures Words(Spaced(words), []) == words
    decreases |words|
  {
    hide Words;
    if words == [] {
      EndOfLine([]);
    } else if |words| == 1 {
      assert words[0] + [] == words[0] && [] + words[0] == words[0];
      WordRead(words[0], [], []);
      EndOfLine(words[0]);
      assert words == [words[0]];
    } else {
      var rest := Spaced(words[1..]);
      assert [] + words[0] == words[0];
      WordRead(words[0], [32] + rest, []);
      SpaceRead(rest, words[0]);
      WordsOfSpaced(words[1..]);
      assert words == [words[0]] + words[1..];
    }
  }

  lemma EndOfLine(read: Bytes)
    ensures Words([], read) == if read == [] then [] else [read]
  {
  }

  lemma SpaceRead(rest: Bytes, read: Bytes)
    requires read != []
    ensures Words([32] + rest, read) == [read] + Words(rest, [])
  {
    assert ([32] + rest)[1..] == rest;
  }

  lemma {:induction false} SpacedHasNoEnds(words: seq<Bytes>)
    requires forall i | 0 <= i < |words| :: IsWord(words[i])
    ensures forall i | 0 <= i < |Spaced(words)| :: Spaced(words)[i] != LF && Spaced(words)[i] != CR
    decreases |words|
  {
    if |words| > 1 {
      SpacedHasNoEnds(words[1..]);
    }
  }

  /** A line of words is the command it spells, and exactly its length. */
  lemma ParsesInline(words: seq<Bytes>, rest: Bytes)
    requires words != [] && (forall i | 0 <= i < |words| :: IsWord(words[i])) && words[0] != [] && words[0][0] != STAR
    ensures Parse(Spaced(words) + Crlf() + rest) == Done(Command(Upper(words[0]), words[1..]), |Spaced(words)| + 2)
  {
    hide Words;
    var text := Spaced(words);
    var input := text + Crlf() + rest;
    WordsOfSpaced(words);
    SpacedHasNoEnds(words);
    hide Spaced;
    FirstByte(words);
    assert input[0] == text[0];
    assert forall k | 0 <= k < |text| :: input[k] == text[k];
    assert input[|text|] == CR && input[|text| + 1] == LF;
    assert FindLf(input, 0) == Some(|text| + 1);
    assert input[..|text| + 1] == text + [CR];
    assert Stripped(text + [CR]) == text;
  }

  lemma FirstByte(words: seq<Bytes>)
    requires words != [] && words[0] != []
    ensures Spaced(words) != [] && Spaced(words)[0] == words[0][0]
  {
  }
}
