/** One connection: reads of a bounded size, a batch after each, and an end at an error or at QUIT. */
module RespServe {
  import opened Bounds
  import opened Keys
  import opened Versions
  import opened Resp
  import opened RespBatch

  const READ_CHUNK: nat := 16 * 1024

  function QuitName(): Bytes {
    [81, 85, 73, 84]
  }

  predicate IsQuit(request: Request) {
    request.Command? && request.name == QuitName()
  }

  predicate HasQuit(commands: seq<Request>) {
    exists i :: 0 <= i < |commands| && IsQuit(commands[i])
  }

  /** After such a batch the connection is closed: later reads are never taken. */
  predicate Closes(batch: Batch) {
    batch.error.Some? || HasQuit(batch.commands)
  }

  /** What a connection makes of its reads: each joins what the last one left over. */
  function Serve(left: Bytes, chunks: seq<Bytes>): Batch
    decreases |chunks|
  {
    if chunks == [] then Batch([], 0, None)
    else
      var input := left + chunks[0];
      var batch := TakeAll(input);
      if Closes(batch) then batch else After(batch, Serve(input[batch.consumed..], chunks[1..]))
  }

  function Joined(chunks: seq<Bytes>): Bytes {
    if chunks == [] then [] else chunks[0] + Joined(chunks[1..])
  }

  /** What reads can bring: some bytes each time, and no more than the read buffer holds. */
  predicate Readable(chunks: seq<Bytes>) {
    forall i | 0 <= i < |chunks| :: 1 <= |chunks[i]| <= READ_CHUNK
  }

  /** The reading loop of one connection, over the reads it gets before the peer closes. */
  method ServeAll(chunks: seq<Bytes>)
      returns (commands: seq<Request>, consumed: nat, error: Option<ProtocolError>)
    ensures Batch(commands, consumed, error) == Serve([], chunks)
  {
    hide TakeAll;
    var connection := new Connection();
    commands, consumed, error := [], 0, None;
    NothingFirst(Serve([], chunks));
    for i := 0 to |chunks|
      invariant fresh(connection) && error == None
      invariant Serve([], chunks) == After(Batch(commands, consumed, None), Serve(connection.input, chunks[i..]))
    {
      ghost var left := connection.input;
      connection.input := connection.input + chunks[i];
      var before := |connection.input|;
      var more, refused := connection.TakeBatch();
      ServeStep(left, chunks[i..]);
      assert chunks[i..][1..] == chunks[i + 1..];
      ghost var batch := TakeAll(left + chunks[i]);
      AfterAssociates(Batch(commands, consumed, None), batch, Serve(connection.input, chunks[i + 1..]));
      commands := commands + more;
      consumed := consumed + (before - |connection.input|);
      var closing := AnyQuit(more);
      if closing || refused.Some? {
        error := refused;
        return;
      }
    }
    AfterNothing(Batch(commands, consumed, None));
  }

  method AnyQuit(commands: seq<Request>) returns (found: bool)
    ensures found <==> HasQuit(commands)
  {
    found := false;
    for i := 0 to |commands|
      invariant !found && forall j | 0 <= j < i :: !IsQuit(commands[j])
    {
      if IsQuit(commands[i]) {
        return true;
      }
    }
  }

  lemma ServeStep(left: Bytes, chunks: seq<Bytes>)
    requires chunks != []
    ensures var input := left + chunks[0];
            var batch := TakeAll(input);
            Serve(left, chunks) == if Closes(batch) then batch
                else After(batch, Serve(input[batch.consumed..], chunks[1..]))
  {
    hide TakeAll, Closes;
  }

  lemma AfterAssociates(a: Batch, b: Batch, c: Batch)
    ensures After(a, After(b, c)) == After(After(a, b), c)
  {
  }

  lemma AfterNothing(a: Batch)
    requires a.error.None?
    ensures After(a, Batch([], 0, None)) == a
  {
  }

  // ---- What a stream amounts to, if that does not depend on the reads ----

  predicate IsLong(input: Bytes, used: nat)
    requires input != []
  {
    input[0] != STAR && used - 1 > MAX_INLINE
  }

  /**
   * No read boundary decides anything: every completed inline line is within the limit, or so far past it that some
   * read ends inside it, and after the first QUIT one more read could not bring a whole request or an error.
   */
  predicate Steady(input: Bytes)
    decreases |input|
  {
    match Parse(input)
    case Done(request, used) =>
      if IsLong(input, used) then used - 1 >= MAX_INLINE + READ_CHUNK
      else if IsQuit(request) then Parse(input[used..used + Min(READ_CHUNK - 1, |input| - used)]) == More
      else Steady(input[used..])
    case _ => true
  }

  /** The outcome then: everything up to the first error, the first line past the limit, or the first QUIT. */
  function Outcome(input: Bytes): Batch
    decreases |input|
  {
    match Parse(input)
    case More => Batch([], 0, None)
    case Error(e) => Batch([], 0, Some(e))
    case Done(request, used) =>
      if IsLong(input, used) then Batch([], 0, Some(TooBigInline))
      else if IsQuit(request) then Batch([request], used, None)
      else Then(request, used, Outcome(input[used..]))
  }

  /** A prefix of unfinished bytes is unfinished. */
  lemma PrefixIsUnfinished(input: Bytes, n: nat)
    requires Parse(input) == More && n <= |input|
    ensures Parse(input[..n]) == More
  {
    hide Parse;
    assert input == input[..n] + input[n..];
    ParseStays(input[..n], input[n..]);
  }

  /** An unfinished inline line is within the limit. */
  lemma UnfinishedIsShort(input: Bytes, k: nat)
    requires k <= |input| && Parse(input[..k]) == More && input != [] && input[0] != STAR
    ensures k <= MAX_INLINE
  {
    if k > 0 {
      assert input[..k][0] == input[0];
    }
  }

  lemma RefusedInline(a: Bytes)
    requires a != [] && a[0] != STAR && Parse(a).Error?
    ensures Parse(a).error == TooBigInline
  {
  }

  /** One request read out of a buffer of which the last read brought all but the first `k` bytes. */
  lemma FirstOfRead(a: Bytes, b: Bytes, k: nat)
    requires k <= |a| <= k + READ_CHUNK && Parse(a[..k]) == More && Steady(a + b) && Parse(a).Done?
    ensures Parse(a + b) == Parse(a) && k < Parse(a).used && !IsLong(a + b, Parse(a).used)
    ensures IsQuit(Parse(a).request) ==> Parse(a[Parse(a).used..]) == More
    ensures !IsQuit(Parse(a).request) ==> Steady(a[Parse(a).used..] + b)
  {
    hide Parse;
    ParseStays(a, b);
    var used := Parse(a).used;
    if used <= k {
      CutKeepsRequest(a, k);
    }
    assert (a + b)[0] == a[0];
    if a[0] != STAR {
      UnfinishedIsShort(a, k);
    }
    if IsQuit(Parse(a).request) {
      var n := Min(READ_CHUNK - 1, |a + b| - used);
      var window := (a + b)[used..used + n];
      assert a[used..] == window[..|a| - used];
      PrefixIsUnfinished(window, |a| - used);
    } else {
      assert (a + b)[used..] == a[used..] + b;
    }
  }

  ghost predicate Resumes(a: Bytes, b: Bytes) {
    var first := TakeAll(a);
    if Closes(first) then first == Outcome(a + b)
    else
      && Parse(a[first.consumed..]) == More && Steady(a[first.consumed..] + b)
      && Outcome(a + b) == After(first, Outcome(a[first.consumed..] + b))
  }

  /** The batch after one read is what the stream amounts to so far, and the rest picks up where it stopped. */
  lemma {:induction false} BatchResumes(a: Bytes, b: Bytes, k: nat)
    requires k <= |a| <= k + READ_CHUNK && Parse(a[..k]) == More && Steady(a + b)
    ensures Resumes(a, b)
    decreases |a|
  {
    hide Parse;
    match Parse(a) {
      case More =>
        assert a[0..] == a;
        NothingFirst(Outcome(a + b));
      case Error(e) =>
        ParseStays(a, b);
        ErrorHasBytes(a);
        assert (a + b)[0] == a[0];
        if a[0] != STAR {
          RefusedInline(a);
        }
      case Done(request, used) =>
        FirstOfRead(a, b, k);
        if IsQuit(request) {
          QuitLast(a, request, used);
        } else {
          NothingYet();
          assert a[used..][..0] == [];
          BatchResumes(a[used..], b, 0);
          ResumesAfter(a, b, request, used);
        }
    }
  }

  lemma NothingYet()
    ensures Parse([]) == More
  {
  }

  lemma QuitLast(a: Bytes, request: Request, used: nat)
    requires Parse(a) == Done(request, used) && IsQuit(request) && Parse(a[used..]) == More
    ensures TakeAll(a) == Batch([request], used, None) && Closes(TakeAll(a))
  {
    hide Parse;
    assert TakeAll(a) == Then(request, used, Batch([], 0, None));
    assert [request] + [] == [request];
    assert IsQuit([request][0]);
  }

  lemma ResumesAfter(a: Bytes, b: Bytes, request: Request, used: nat)
    requires Parse(a) == Done(request, used) && Parse(a + b) == Parse(a) && !IsLong(a + b, used) && !IsQuit(request)
    requires Resumes(a[used..], b)
    ensures Resumes(a, b)
  {
    hide Parse;
    var rest := TakeAll(a[used..]);
    assert (a + b)[used..] == a[used..] + b;
    assert a[used..][rest.consumed..] == a[used + rest.consumed..];
    ClosesThen(request, used, rest);
    if !Closes(rest) {
      ThenAfter(request, used, rest, Outcome(a[used..][rest.consumed..] + b));
    }
  }

  lemma ClosesThen(request: Request, used: nat, rest: Batch)
    requires !IsQuit(request)
    ensures Closes(Then(request, used, rest)) <==> Closes(rest)
  {
    var all := Then(request, used, rest).commands;
    if request.Command? {
      assert forall i | 0 <= i < |rest.commands| :: all[i + 1] == rest.commands[i];
    } else {
      assert all == rest.commands;
    }
  }

  /** A steady stream gives the same commands, as far, with the same error, however it is split into reads. */
  lemma {:induction false} SplitsDoNotMatter(left: Bytes, chunks: seq<Bytes>)
    requires Parse(left) == More && Readable(chunks) && Steady(left + Joined(chunks))
    ensures Serve(left, chunks) == Outcome(left + Joined(chunks))
    decreases |chunks|
  {
    hide Parse, TakeAll, Steady;
    if chunks == [] {
      assert left + [] == left;
    } else {
      var input, rest := left + chunks[0], Joined(chunks[1..]);
      assert left + Joined(chunks) == input + rest;
      assert input[..|left|] == left;
      BatchResumes(input, rest, |left|);
      var batch := TakeAll(input);
      if !Closes(batch) {
        SplitsDoNotMatter(input[batch.consumed..], chunks[1..]);
      }
    }
  }

  // ---- A stream that is not steady ----

  function Singles(bytes: Bytes): (r: seq<Bytes>)
    ensures |r| == |bytes| && Readable(r)
  {
    seq(|bytes|, i requires 0 <= i < |bytes| => [bytes[i]])
  }

  lemma {:induction false} JoinsSingles(bytes: Bytes)
    ensures Joined(Singles(bytes)) == bytes
  {
    if bytes != [] {
      JoinsSingles(bytes[1..]);
      assert Singles(bytes)[1..] == Singles(bytes[1..]);
    }
  }

  lemma {:induction false} JoinedSplits(a: seq<Bytes>, b: seq<Bytes>)
    ensures Joined(a + b) == Joined(a) + Joined(b)
  {
    if a == [] {
      assert a + b == b;
    } else {
      hide Joined;
      JoinedSplits(a[1..], b);
      FirstAndRest(a, b);
      JoinedStep(a);
      JoinedStep(a + b);
      Regrouped(a[0], Joined(a[1..]), Joined(b));
    }
  }

  lemma FirstAndRest(a: seq<Bytes>, b: seq<Bytes>)
    requires a != []
    ensures (a + b)[0] == a[0] && (a + b)[1..] == a[1..] + b
  {
  }

  lemma Regrouped(a: Bytes, b: Bytes, c: Bytes)
    ensures a + (b + c) == (a + b) + c
  {
  }

  lemma JoinedStep(chunks: seq<Bytes>)
    requires chunks != []
    ensures Joined(chunks) == chunks[0] + Joined(chunks[1..])
  {
  }

  /** Reads after an unclosed stretch start from what it left over. */
  lemma {:induction false} ServeSplits(left: Bytes, a: seq<Bytes>, b: seq<Bytes>)
    ensures var first := Serve(left, a);
            && first.consumed <= |left + Joined(a)|
            && Serve(left, a + b) == if Closes(first) then first
               else After(first, Serve((left + Joined(a))[first.consumed..], b))
    decreases |a|
  {
    hide TakeAll, Closes;
    if a == [] {
      assert a + b == b && left + [] == left && left[0..] == left;
      NothingFirst(Serve(left, b));
      NoQuitYet();
    } else {
      hide Serve, Joined;
      var input := left + a[0];
      var batch := TakeAll(input);
      FirstAndRest(a, b);
      ServeStep(left, a);
      ServeStep(left, a + b);
      JoinedStep(a);
      var later := Joined(a[1..]);
      assert left + Joined(a) == input + later;
      if !Closes(batch) {
        var rest := input[batch.consumed..];
        ServeSplits(rest, a[1..], b);
        var more := Serve(rest, a[1..]);
        assert (rest + later)[more.consumed..] == (input + later)[batch.consumed + more.consumed..];
        ClosesAfter(batch, more);
        AfterAssociates(batch, more, Serve((rest + later)[more.consumed..], b));
      }
    }
  }

  lemma NoQuitYet()
    ensures !Closes(Batch([], 0, None))
  {
  }

  lemma ClosesAfter(a: Batch, b: Batch)
    requires !Closes(a)
    ensures Closes(After(a, b)) <==> Closes(b)
  {
    var all := After(a, b).commands;
    assert forall i | 0 <= i < |b.commands| :: all[|a.commands| + i] == b.commands[i];
    if HasQuit(all) {
      var i :| 0 <= i < |all| && IsQuit(all[i]);
      assert i >= |a.commands|;
      assert IsQuit(b.commands[i - |a.commands|]);
    }
  }

  /** A whole request at the front of a stream can be read in one byte at a time, leaving nothing over. */
  lemma TakenByBytes(input: Bytes, request: Request, used: nat, chunks: seq<Bytes>)
    requires Parse(input) == Done(request, used) && !IsLong(input, used) && !IsQuit(request)
    ensures Serve([], Singles(input[..used]) + chunks) == Then(request, used, Serve([], chunks))
  {
    hide Parse, TakeAll;
    var front := input[..used];
    CutKeepsRequest(input, used);
    assert front[0] == input[0];
    assert front[used..] == [];
    NothingYet();
    JoinsSingles(front);
    assert [] + front == front;
    SplitsDoNotMatter([], Singles(front));
    ServeSplits([], Singles(front), chunks);
    assert Outcome(front) == Then(request, used, Batch([], 0, None));
    ClosesThen(request, used, Batch([], 0, None));
    NoQuitYet();
    ThenAfter(request, used, Batch([], 0, None), Serve([], chunks));
    NothingFirst(Serve([], chunks));
  }

  /** Unfinished bytes can be read in one at a time and are then all left over. */
  lemma LeftByBytes(front: Bytes, chunks: seq<Bytes>)
    requires Parse(front) == More
    ensures Serve([], Singles(front) + chunks) == Serve(front, chunks)
  {
    hide Parse, TakeAll;
    NothingYet();
    JoinsSingles(front);
    assert [] + front == front && front[0..] == front;
    SplitsDoNotMatter([], Singles(front));
    ServeSplits([], Singles(front), chunks);
    NoQuitYet();
    NothingFirst(Serve(front, chunks));
  }

  ghost predicate IsSplit(chunks: seq<Bytes>, input: Bytes) {
    Readable(chunks) && Joined(chunks) == input
  }

  /** One byte at a time up to `at`, then one read up to `end`, then one byte at a time. */
  function Jump(input: Bytes, at: nat, end: nat): (r: seq<Bytes>)
    requires at < end <= |input| && end - at <= READ_CHUNK
    ensures Readable(r)
  {
    Singles(input[..at]) + [input[at..end]] + Singles(input[end..])
  }

  lemma JumpSplits(input: Bytes, at: nat, end: nat)
    requires at < end <= |input| && end - at <= READ_CHUNK
    ensures IsSplit(Jump(input, at, end), input)
  {
    var middle := [input[at..end]];
    JoinsSingles(input[..at]);
    JoinsSingles(input[end..]);
    JoinedSplits(Singles(input[..at]) + middle, Singles(input[end..]));
    JoinedSplits(Singles(input[..at]), middle);
    assert Joined(middle) == input[at..end];
    assert input == input[..at] + input[at..end] + input[end..];
  }

  /** What such a split comes to, if the bytes before the jump are unfinished. */
  lemma JumpServes(input: Bytes, at: nat, end: nat)
    requires at < end <= |input| && end - at <= READ_CHUNK && Parse(input[..at]) == More
    ensures var batch := TakeAll(input[..end]);
            && batch.consumed <= Serve([], Jump(input, at, end)).consumed
            && (Closes(batch) ==> Serve([], Jump(input, at, end)) == batch)
  {
    hide Parse, TakeAll;
    var rest := [input[at..end]] + Singles(input[end..]);
    assert Jump(input, at, end) == Singles(input[..at]) + rest;
    LeftByBytes(input[..at], rest);
    ServeStep(input[..at], rest);
    assert input[..at] + input[at..end] == input[..end];
  }

  /** A line a little past the limit is taken if one read brings its end, and refused otherwise. */
  lemma LongLineDiverges(input: Bytes) returns (a: seq<Bytes>, b: seq<Bytes>)
    requires Parse(input).Done? && IsLong(input, Parse(input).used) && !Steady(input)
    ensures IsSplit(a, input) && IsSplit(b, input) && Serve([], a) != Serve([], b)
  {
    var used := Parse(input).used;
    LineIsUnfinished(input, MAX_INLINE);
    LineIsUnfinished(input, MAX_INLINE + 1);
    CutKeepsRequest(input, used);
    a, b := Jump(input, MAX_INLINE, used), Jump(input, MAX_INLINE, MAX_INLINE + 1);
    JumpSplits(input, MAX_INLINE, used);
    JumpSplits(input, MAX_INLINE, MAX_INLINE + 1);
    TakesFirst(input[..used]);
    RefusesFirst(input[..MAX_INLINE + 1]);
    hide Parse, TakeAll, Jump, Serve;
    JumpServes(input, MAX_INLINE, used);
    JumpServes(input, MAX_INLINE, MAX_INLINE + 1);
  }

  lemma TakesFirst(a: Bytes)
    requires Parse(a).Done?
    ensures TakeAll(a).consumed >= Parse(a).used > 0
  {
    hide Parse;
  }

  lemma RefusesFirst(a: Bytes)
    requires Parse(a).Error?
    ensures TakeAll(a).consumed == 0 && Closes(TakeAll(a))
  {
    hide Parse;
  }

  /** A line cut before its end is unfinished while within the limit, and refused past it. */
  lemma LineIsUnfinished(input: Bytes, n: nat)
    requires Parse(input).Done? && input != [] && input[0] != STAR && n < Parse(input).used
    ensures n <= |input|
    ensures Parse(input[..n]) == if n > MAX_INLINE then Error(TooBigInline) else More
  {
  }

  /** A request cut short of its end is unfinished. */
  lemma CutIsUnfinished(input: Bytes, n: nat)
    requires Parse(input).Done? && n < Parse(input).used && !IsLong(input, Parse(input).used)
    ensures n <= |input| && Parse(input[..n]) == More
  {
    if input[0] != STAR {
      LineIsUnfinished(input, n);
    } else {
      hide Parse;
      ParseStays(input[..n], input[n..]);
      assert input == input[..n] + input[n..];
    }
  }

  /** What one more read brings after QUIT is taken, or refused, if it comes with it and not if it comes later. */
  lemma QuitDiverges(input: Bytes) returns (a: seq<Bytes>, b: seq<Bytes>)
    requires Parse(input).Done? && !IsLong(input, Parse(input).used) && IsQuit(Parse(input).request) && !Steady(input)
    ensures IsSplit(a, input) && IsSplit(b, input) && Serve([], a) != Serve([], b)
  {
    hide Parse, TakeAll, Jump, Serve;
    var used := Parse(input).used;
    var end := used + Min(READ_CHUNK - 1, |input| - used);
    CutIsUnfinished(input, used - 1);
    a, b := Jump(input, used - 1, end), Jump(input, used - 1, used);
    JumpSplits(input, used - 1, end);
    JumpSplits(input, used - 1, used);
    JumpServes(input, used - 1, end);
    JumpServes(input, used - 1, used);
    QuitTakes(input, used);
    QuitTakes(input, end);
    NothingYet();
    assert input[used..used] == [];
    NothingTaken([]);
    SomethingTaken(input[used..end]);
  }

  lemma NothingTaken(a: Bytes)
    requires Parse(a) == More
    ensures TakeAll(a) == Batch([], 0, None)
  {
    hide Parse;
  }

  lemma SomethingTaken(a: Bytes)
    requires Parse(a) != More
    ensures TakeAll(a).error.Some? || TakeAll(a).consumed > 0
  {
    hide Parse;
    if Parse(a).Done? {
      TakesFirst(a);
    }
  }

  lemma QuitTakes(input: Bytes, end: nat)
    requires Parse(input).Done? && IsQuit(Parse(input).request) && Parse(input).used <= end <= |input|
    ensures var used := Parse(input).used;
            && TakeAll(input[..end]) == Then(Parse(input).request, used, TakeAll(input[used..end]))
            && Closes(TakeAll(input[..end]))
  {
    hide Parse;
    var used := Parse(input).used;
    CutKeepsRequest(input, end);
    assert input[..end][used..] == input[used..end];
    assert TakeAll(input[..end]).commands[0] == Parse(input).request;
  }

  /** A stream that is not steady comes out differently under two splits into reads. */
  lemma {:induction false} Diverges(input: Bytes) returns (a: seq<Bytes>, b: seq<Bytes>)
    requires !Steady(input)
    ensures IsSplit(a, input) && IsSplit(b, input) && Serve([], a) != Serve([], b)
    decreases |input|
  {
    hide Parse, TakeAll, Serve;
    var request, used := Parse(input).request, Parse(input).used;
    if IsLong(input, used) {
      a, b := LongLineDiverges(input);
    } else if IsQuit(request) {
      a, b := QuitDiverges(input);
    } else {
      var c, d := Diverges(input[used..]);
      var front := Singles(input[..used]);
      a, b := front + c, front + d;
      TakenByBytes(input, request, used, c);
      TakenByBytes(input, request, used, d);
      ThenDiffers(request, used, Serve([], c), Serve([], d));
      JoinsSingles(input[..used]);
      JoinedSplits(front, c);
      JoinedSplits(front, d);
      assert input == input[..used] + input[used..];
    }
  }

  lemma ThenDiffers(request: Request, used: nat, a: Batch, b: Batch)
    requires a != b
    ensures Then(request, used, a) != Then(request, used, b)
  {
    var front := if request.Command? then [request] else [];
    assert (front + a.commands)[|front|..] == a.commands;
    assert (front + b.commands)[|front|..] == b.commands;
  }

  /** Every way of reading the stream gives the same commands, as far, with the same error. */
  ghost predicate SplitsAgree(input: Bytes) {
    forall a, b | IsSplit(a, input) && IsSplit(b, input) :: Serve([], a) == Serve([], b)
  }

  /** The exact streams whose outcome does not depend on where the reads fall. */
  lemma SplitsAgreeExactlyWhenSteady(input: Bytes)
    ensures SplitsAgree(input) <==> Steady(input)
  {
    hide Parse, Serve, Steady, Outcome;
    if Steady(input) {
      NothingYet();
      assert [] + input == input;
      forall a, b | IsSplit(a, input) && IsSplit(b, input) ensures Serve([], a) == Serve([], b) {
        SplitsDoNotMatter([], a);
        SplitsDoNotMatter([], b);
      }
    } else {
      var a, b := Diverges(input);
      assert !SplitsAgree(input);
    }
  }

  // ---- Two streams that are not steady ----

  function Letters(n: nat): Bytes {
    seq(n, i => 97)
  }

  /** Four full reads of letters, which fill the limit exactly. */
  function FullReads(): (r: seq<Bytes>)
    ensures |r| == 4 && Readable(r)
  {
    [Letters(READ_CHUNK), Letters(READ_CHUNK), Letters(READ_CHUNK), Letters(READ_CHUNK)]
  }

  lemma FullReadsJoin()
    ensures Joined(FullReads()) == Letters(MAX_INLINE)
  {
    var full := Letters(READ_CHUNK);
    JoinedSplits([full, full], [full, full]);
    assert FullReads() == [full, full] + [full, full];
    assert [full, full][1..] == [full];
    assert Joined([full]) == full;
    assert Joined([full, full]) == full + full;
    assert (full + full) + (full + full) == Letters(MAX_INLINE);
  }

  /** Nothing comes of the four full reads: the next read starts from all of them. */
  lemma AfterFullReads(chunks: seq<Bytes>)
    ensures Serve([], FullReads() + chunks) == Serve(Letters(MAX_INLINE), chunks)
  {
    var all := Letters(MAX_INLINE);
    LettersAreUnfinished(MAX_INLINE);
    hide Parse, TakeAll, FullReads, Letters;
    NothingYet();
    FullReadsJoin();
    assert [] + all == all && all[0..] == all;
    SplitsDoNotMatter([], FullReads());
    ServeSplits([], FullReads(), chunks);
    NoQuitYet();
    NothingFirst(Serve(all, chunks));
  }

  lemma LettersAreUnfinished(n: nat)
    requires n <= MAX_INLINE + 1
    ensures Parse(Letters(n)) == if n > MAX_INLINE then Error(TooBigInline) else More
  {
  }

  function LineOf(word: Bytes): Bytes {
    word + Crlf()
  }

  /** A line of one word is that command without arguments. */
  lemma LineParses(word: Bytes, rest: Bytes)
    requires IsWord(word) && word[0] != STAR
    ensures Parse(LineOf(word) + rest) == Done(Command(Upper(word), []), |word| + 2)
  {
    hide Parse;
    ParsesInline([word], rest);
    assert Spaced([word]) == word && [word][1..] == [];
  }

  lemma LineServes(word: Bytes)
    requires IsWord(word) && word[0] != STAR
    ensures TakeAll(LineOf(word)) == Batch([Command(Upper(word), [])], |word| + 2, None)
  {
    hide Parse, Upper;
    LineParses(word, []);
    var line := LineOf(word);
    assert line + [] == line && line[|line|..] == [];
    NothingYet();
    NothingTaken([]);
    var request := Command(Upper(word), []);
    assert [request] + [] == [request];
  }

  lemma LastRead(left: Bytes, chunk: Bytes)
    ensures Serve(left, [chunk]) == TakeAll(left + chunk)
  {
    hide TakeAll;
    ServeStep(left, [chunk]);
    var batch := TakeAll(left + chunk);
    if !Closes(batch) {
      AfterNothing(batch);
    }
  }

  lemma ClosingRead(left: Bytes, chunks: seq<Bytes>)
    requires chunks != [] && Closes(TakeAll(left + chunks[0]))
    ensures Serve(left, chunks) == TakeAll(left + chunks[0])
  {
    hide TakeAll, Closes;
    ServeStep(left, chunks);
  }

  lemma RefusedBatch(a: Bytes)
    requires Parse(a).Error?
    ensures TakeAll(a) == Batch([], 0, Some(Parse(a).error))
  {
    hide Parse;
  }

  lemma ReadsJoin()
    ensures var together, apart := FullReads() + [LineOf([97])], FullReads() + [[97], Crlf()];
            Joined(together) == Joined(apart) && Readable(together) && Readable(apart)
  {
    assert |LineOf([97])| == 3 && |Crlf()| == 2;
    hide FullReads;
    JoinedSplits(FullReads(), [LineOf([97])]);
    JoinedSplits(FullReads(), [[97], Crlf()]);
    assert Joined([LineOf([97])]) == LineOf([97]);
    assert [[97], Crlf()][1..] == [Crlf()] && Joined([Crlf()]) == Crlf();
  }

  lemma OneLetterMore()
    ensures var word := Letters(MAX_INLINE + 1);
            && |word| == MAX_INLINE + 1 && IsWord(word) && word[0] != STAR && word == Letters(MAX_INLINE) + [97]
            && LineOf(word) == Letters(MAX_INLINE) + LineOf([97])
  {
    hide Upper;
    var word := Letters(MAX_INLINE + 1);
    assert word == Letters(MAX_INLINE) + [97];
  }

  /**
   * The same bytes, one letter past the limit and a line end: a command if the last read brings that letter with the
   * line end, and an error if it comes alone.
   */
  lemma ALongLineIsReadOrRefused()
    ensures var together, apart := FullReads() + [LineOf([97])], FullReads() + [[97], Crlf()];
            && Joined(together) == Joined(apart) && Readable(together) && Readable(apart)
            && Serve([], together) == Batch([Command(Upper(Letters(MAX_INLINE + 1)), [])], MAX_INLINE + 3, None)
            && Serve([], apart) == Batch([], 0, Some(TooBigInline))
  {
    hide *;
    var word := Letters(MAX_INLINE + 1);
    ReadsJoin();
    OneLetterMore();
    LettersAreUnfinished(MAX_INLINE + 1);
    AfterFullReads([LineOf([97])]);
    AfterFullReads([[97], Crlf()]);
    LineServes(word);
    LastRead(Letters(MAX_INLINE), LineOf([97]));
    RefusesFirst(word);
    RefusedBatch(word);
    ClosingRead(Letters(MAX_INLINE), [[97], Crlf()]);
  }

  function PingName(): Bytes {
    [80, 73, 78, 71]
  }

  lemma NamesAreWords()
    ensures IsWord(QuitName()) && QuitName()[0] != STAR && Upper(QuitName()) == QuitName()
    ensures IsWord(PingName()) && PingName()[0] != STAR && Upper(PingName()) == PingName()
  {
  }

  lemma QuitThen(rest: Bytes)
    ensures TakeAll(LineOf(QuitName()) + rest).commands == [Command(QuitName(), [])] + TakeAll(rest).commands
    ensures Closes(TakeAll(LineOf(QuitName()) + rest))
  {
    hide Parse, Upper, Spaced, IsWord;
    NamesAreWords();
    LineParses(QuitName(), rest);
    var input := LineOf(QuitName()) + rest;
    assert input[6..] == rest;
    assert IsQuit(TakeAll(input).commands[0]);
  }

  /** A command behind QUIT is answered if the same read brings both, and never taken if the next one brings it. */
  lemma ACommandBehindQuitIsTakenOrNot()
    ensures var quit, ping := LineOf(QuitName()), LineOf(PingName());
            && Serve([], [quit + ping]).commands == [Command(QuitName(), []), Command(PingName(), [])]
            && Serve([], [quit, ping]).commands == [Command(QuitName(), [])]
  {
    hide *;
    var quit, ping := LineOf(QuitName()), LineOf(PingName());
    NamesAreWords();
    LineServes(PingName());
    QuitThen(ping);
    QuitThen([]);
    NothingYet();
    NothingTaken([]);
    assert [] + (quit + ping) == quit + ping && quit + [] == quit && [] + quit == quit;
    LastRead([], quit + ping);
    ClosingRead([], [quit, ping]);
  }
}
