/** The request side of the Redis serialization protocol (RESP2): arrays of bulk strings, and inline commands. */
module Resp {
  import opened Keys
  import opened Versions

  const MAX_ARGS: nat := 1024 * 1024
  const MAX_BULK: nat := 512 * 1024 * 1024
  const MAX_INLINE: nat := 64 * 1024
  const I64_MAX: nat := 0x7FFF_FFFF_FFFF_FFFF

  const CR: byte := 13
  const LF: byte := 10
  const STAR: byte := 42
  const DOLLAR: byte := 36
  const PLUS: byte := 43
  const MINUS: byte := 45
  const ZERO: byte := 48

  datatype Request = Command(name: Bytes, args: seq<Bytes>) | Empty

  datatype ProtocolError = BadMultibulk | ExpectedDollar | BadBulk | Unbalanced | TooBigInline

  /** What the bytes that have arrived hold: one request and its length, not a whole one yet, or no request at all. */
  datatype Parsed = Done(request: Request, used: nat) | More | Error(error: ProtocolError)

  // ---- Lines and numbers ----

  /** The first line end at or after `i`. */
  function FindCrlf(input: Bytes, i: nat): (r: Option<nat>)
    ensures r.Some? ==> i <= r.value && r.value + 2 <= |input| && input[r.value] == CR && input[r.value + 1] == LF
    decreases |input| - i
  {
    if i + 2 > |input| then None
    else if input[i] == CR && input[i + 1] == LF then Some(i)
    else FindCrlf(input, i + 1)
  }

  function FindLf(input: Bytes, i: nat): (r: Option<nat>)
    ensures r.Some? ==> i <= r.value < |input| && input[r.value] == LF
    ensures r.Some? ==> forall k | i <= k < r.value :: input[k] != LF
    ensures r.None? ==> forall k | i <= k < |input| :: input[k] != LF
    decreases |input| - i
  {
    if i >= |input| then None
    else if input[i] == LF then Some(i)
    else FindLf(input, i + 1)
  }

  /** The text up to the next line end, and where the line after it starts. */
  function Line(input: Bytes, from: nat): (r: Option<(Bytes, nat)>)
    ensures r.Some? ==> from + 2 <= r.value.1 <= |input|
  {
    if from > |input| then None
    else
      match FindCrlf(input, from)
      case None => None
      case Some(at) => Some((input[from..at], at + 2))
  }

  predicate IsDigit(b: byte) {
    ZERO <= b <= ZERO + 9
  }

  /** The value of a run of digits. */
  function Digits(bytes: Bytes): Option<nat> {
    if bytes == [] then Some(0)
    else
      var last := bytes[|bytes| - 1];
      match Digits(bytes[..|bytes| - 1])
      case None => None
      case Some(n) => if IsDigit(last) then Some(10 * n + (last - ZERO) as nat) else None
  }

  /** A signed 64-bit decimal number: an optional sign and at least one digit. */
  function Integer(bytes: Bytes): Option<int> {
    if bytes == [] then None
    else
      var signed := bytes[0] == PLUS || bytes[0] == MINUS;
      var digits := if signed then bytes[1..] else bytes;
      if digits == [] then None
      else
        match Digits(digits)
        case None => None
        case Some(n) =>
          if bytes[0] == MINUS then (if n <= I64_MAX + 1 then Some(-(n as int)) else None)
          else if n <= I64_MAX then Some(n)
          else None
  }

  // ---- Arrays ----

  datatype BulkRead = Bulk(bytes: Bytes, next: nat) | NeedMore | Refused(error: ProtocolError)

  function ReadBulk(input: Bytes, from: nat): (r: BulkRead)
    ensures r.Bulk? ==> from < r.next <= |input|
  {
    if from >= |input| then NeedMore
    else if input[from] != DOLLAR then Refused(ExpectedDollar)
    else
      match Line(input, from + 1)
      case None => NeedMore
      case Some((head, at)) =>
        match Integer(head)
        case None => Refused(BadBulk)
        case Some(len) =>
          if len < 0 || len > MAX_BULK then Refused(BadBulk)
          else if |input| < at + len + 2 then NeedMore
          else if input[at + len] != CR || input[at + len + 1] != LF then Refused(Unbalanced)
          else Bulk(input[at..at + len], at + len + 2)
  }

  datatype ArgsRead = Args(args: seq<Bytes>, next: nat) | ArgsMore | ArgsRefused(error: ProtocolError)

  function ReadArgs(input: Bytes, from: nat, count: nat): (r: ArgsRead)
    requires from <= |input|
    ensures r.Args? ==> from <= r.next <= |input| && |r.args| == count
    decreases count
  {
    if count == 0 then Args([], from)
    else
      match ReadBulk(input, from)
      case NeedMore => ArgsMore
      case Refused(e) => ArgsRefused(e)
      case Bulk(bytes, next) =>
        match ReadArgs(input, next, count - 1)
        case ArgsMore => ArgsMore
        case ArgsRefused(e) => ArgsRefused(e)
        case Args(args, end) => Args([bytes] + args, end)
  }

  /** Command names are case insensitive. */
  function Upper(name: Bytes): (r: Bytes)
    ensures |r| == |name|
  {
    seq(|name|, i requires 0 <= i < |name| => if 97 <= name[i] <= 122 then name[i] - 32 else name[i])
  }

  function ParseArray(input: Bytes): (r: Parsed)
    ensures r.Done? ==> 0 < r.used <= |input|
  {
    match Line(input, 1)
    case None => More
    case Some((head, at)) =>
      match Integer(head)
      case None => Error(BadMultibulk)
      case Some(count) =>
        if count <= 0 then Done(Empty, at)
        else if count > MAX_ARGS then Error(BadMultibulk)
        else
          match ReadArgs(input, at, count)
          case ArgsMore => More
          case ArgsRefused(e) => Error(e)
          case Args(args, end) => Done(Command(Upper(args[0]), args[1..]), end)
  }

  // ---- Inline commands ----

  predicate IsSpace(b: byte) {
    b == 32 || b == 9 || b == 10 || b == 12 || b == 13
  }

  /** The words of a line; `word` is the one being read. */
  function Words(bytes: Bytes, word: Bytes): seq<Bytes>
    decreases |bytes|
  {
    if bytes == [] then (if word == [] then [] else [word])
    else if IsSpace(bytes[0]) then (if word == [] then [] else [word]) + Words(bytes[1..], [])
    else Words(bytes[1..], word + [bytes[0]])
  }

  function Stripped(bytes: Bytes): Bytes {
    if bytes != [] && bytes[|bytes| - 1] == CR then bytes[..|bytes| - 1] else bytes
  }

  function ParseInline(input: Bytes): (r: Parsed)
    ensures r.Done? ==> 0 < r.used <= |input|
  {
    match FindLf(input, 0)
    case None => if |input| > MAX_INLINE then Error(TooBigInline) else More
    case Some(end) =>
      var words := Words(Stripped(input[..end]), []);
      if words == [] then Done(Empty, end + 1) else Done(Command(Upper(words[0]), words[1..]), end + 1)
  }

  /** What the bytes received so far amount to: a request, an error, or not enough. */
  function Parse(input: Bytes): (r: Parsed)
    ensures r.Done? ==> 0 < r.used <= |input|
  {
    if input == [] then More
    else if input[0] == STAR then ParseArray(input)
    else ParseInline(input)
  }

  /** One argument after the other, as it runs. */
  method CollectArgs(input: Bytes, from: nat, count: nat) returns (r: ArgsRead)
    requires from <= |input|
    ensures r == ReadArgs(input, from, count)
  {
    hide ReadBulk;
    var at: nat, args: seq<Bytes> := from, [];
    ghost var whole := ReadArgs(input, from, count);
    assert whole.Args? ==> args + whole.args == whole.args;
    for i := 0 to count
      invariant at <= |input|
      invariant whole == match ReadArgs(input, at, count - i)
                         case Args(rest, end) => Args(args + rest, end)
                         case other => other
    {
      var next := ReadBulk(input, at);
      if next.NeedMore? {
        return ArgsMore;
      }
      if next.Refused? {
        return ArgsRefused(next.error);
      }
      ghost var rest := ReadArgs(input, next.next, count - i - 1);
      assert rest.Args? ==> args + ([next.bytes] + rest.args) == (args + [next.bytes]) + rest.args;
      args := args + [next.bytes];
      at := next.next;
    }
    assert args + [] == args;
    return Args(args, at);
  }

  method ReadArray(input: Bytes) returns (r: Parsed)
    ensures r == ParseArray(input)
  {
    hide Integer, Line, ReadArgs, Upper;
    var head := Line(input, 1);
    if head.None? {
      return More;
    }
    var count := Integer(head.value.0);
    if count.None? {
      return Error(BadMultibulk);
    }
    if count.value <= 0 {
      return Done(Empty, head.value.1);
    }
    if count.value > MAX_ARGS {
      return Error(BadMultibulk);
    }
    var read := CollectArgs(input, head.value.1, count.value);
    match read {
      case ArgsMore => return More;
      case ArgsRefused(e) => return Error(e);
      case Args(args, end) => return Done(Command(Upper(args[0]), args[1..]), end);
    }
  }

  // ---- More bytes change nothing that was decided ----

  lemma {:induction false} CrlfStays(a: Bytes, b: Bytes, i: nat)
    ensures FindCrlf(a, i).Some? ==> FindCrlf(a + b, i) == FindCrlf(a, i)
    decreases |a| - i
  {
    if i + 2 <= |a| {
      assert (a + b)[i] == a[i] && (a + b)[i + 1] == a[i + 1];
      CrlfStays(a, b, i + 1);
    }
  }

  lemma LineStays(a: Bytes, b: Bytes, from: nat)
    ensures Line(a, from).Some? ==> Line(a + b, from) == Line(a, from)
  {
    CrlfStays(a, b, from);
    if Line(a, from).Some? {
      var at := FindCrlf(a, from).value;
      assert (a + b)[from..at] == a[from..at];
    }
  }

  lemma BulkStays(a: Bytes, b: Bytes, from: nat)
    ensures !ReadBulk(a, from).NeedMore? ==> ReadBulk(a + b, from) == ReadBulk(a, from)
  {
    hide Integer, Line;
    LineStays(a, b, from + 1);
    var r := ReadBulk(a, from);
    if r.Bulk? {
      var (head, at) := Line(a, from + 1).value;
      var len := Integer(head).value;
      assert (a + b)[at..at + len] == a[at..at + len];
    }
  }

  lemma {:induction false} ArgsStay(a: Bytes, b: Bytes, from: nat, count: nat)
    requires from <= |a|
    ensures !ReadArgs(a, from, count).ArgsMore? ==> ReadArgs(a + b, from, count) == ReadArgs(a, from, count)
    decreases count
  {
    hide ReadBulk;
    if count > 0 {
      BulkStays(a, b, from);
      var r := ReadBulk(a, from);
      if r.Bulk? {
        ArgsStay(a, b, r.next, count - 1);
      }
    }
  }

  lemma ArrayStays(a: Bytes, b: Bytes)
    ensures !ParseArray(a).More? ==> ParseArray(a + b) == ParseArray(a)
  {
    hide Integer, Line, ReadArgs;
    LineStays(a, b, 1);
    var head := Line(a, 1);
    if head.Some? {
      var count := Integer(head.value.0);
      if count.Some? && 0 < count.value <= MAX_ARGS {
        ArgsStay(a, b, head.value.1, count.value);
      }
    }
  }

  lemma {:induction false} LfStays(a: Bytes, b: Bytes, i: nat)
    ensures FindLf(a, i).Some? ==> FindLf(a + b, i) == FindLf(a, i)
    decreases |a| - i
  {
    if i < |a| {
      assert (a + b)[i] == a[i];
      LfStays(a, b, i + 1);
    }
  }

  lemma InlineStays(a: Bytes, b: Bytes)
    ensures ParseInline(a).Done? ==> ParseInline(a + b) == ParseInline(a)
  {
    hide FindLf, Words;
    LfStays(a, b, 0);
    if FindLf(a, 0).Some? {
      var end := FindLf(a, 0).value;
      assert (a + b)[..end] == a[..end];
    }
  }

  /** An inline line is refused for its length only while its end has not arrived. */
  lemma InlineRefused(a: Bytes, b: Bytes)
    requires ParseInline(a).Error?
    ensures ParseInline(a + b) == ParseInline(a) || (ParseInline(a + b).Done?
                                                     && ParseInline(a + b).used - 1 > MAX_INLINE)
  {
    hide Words;
    var end := FindLf(a + b, 0);
    if end.Some? {
      assert forall k | 0 <= k < |a| :: (a + b)[k] == a[k];
      assert end.value >= |a|;
    }
  }

  /** A request read stays read, and an array refused stays refused, whatever bytes follow. */
  lemma ParseStays(a: Bytes, b: Bytes)
    ensures Parse(a).Done? ==> Parse(a + b) == Parse(a)
    ensures Parse(a).Error? ==>
              Parse(a + b) == Parse(a) || (a[0] != STAR && Parse(a + b).Done? && Parse(a + b).used - 1 > MAX_INLINE)
  {
    hide ParseArray, ParseInline;
    if a != [] {
      assert (a + b)[0] == a[0];
      ArrayStays(a, b);
      InlineStays(a, b);
      if a[0] != STAR && ParseInline(a).Error? {
        InlineRefused(a, b);
      }
    }
  }

  // ---- A request is decided by its own bytes ----

  lemma {:induction false} CrlfCut(input: Bytes, i: nat, n: nat)
    requires FindCrlf(input, i).Some? && FindCrlf(input, i).value + 2 <= n <= |input|
    ensures FindCrlf(input[..n], i) == FindCrlf(input, i)
    decreases |input| - i
  {
    assert input[..n][i] == input[i] && input[..n][i + 1] == input[i + 1];
    if !(input[i] == CR && input[i + 1] == LF) {
      CrlfCut(input, i + 1, n);
    }
  }

  lemma LineCut(input: Bytes, from: nat, n: nat)
    requires Line(input, from).Some? && Line(input, from).value.1 <= n <= |input|
    ensures Line(input[..n], from) == Line(input, from)
  {
    CrlfCut(input, from, n);
    var at := FindCrlf(input, from).value;
    assert input[..n][from..at] == input[from..at];
  }

  lemma BulkCut(input: Bytes, from: nat, n: nat)
    requires ReadBulk(input, from).Bulk? && ReadBulk(input, from).next <= n <= |input|
    ensures ReadBulk(input[..n], from) == ReadBulk(input, from)
  {
    hide Integer, Line;
    var (head, at) := Line(input, from + 1).value;
    var len := Integer(head).value;
    LineCut(input, from + 1, n);
    assert input[..n][at..at + len] == input[at..at + len];
  }

  lemma {:induction false} ArgsCut(input: Bytes, from: nat, count: nat, n: nat)
    requires from <= |input| && ReadArgs(input, from, count).Args? && ReadArgs(input, from, count).next <= n <= |input|
    ensures from <= n && ReadArgs(input[..n], from, count) == ReadArgs(input, from, count)
    decreases count
  {
    hide ReadBulk;
    if count > 0 {
      var next := ReadBulk(input, from).next;
      ArgsCut(input, next, count - 1, n);
      BulkCut(input, from, n);
    }
  }

  lemma ArrayCut(input: Bytes, n: nat)
    requires ParseArray(input).Done? && ParseArray(input).used <= n <= |input|
    ensures ParseArray(input[..n]) == ParseArray(input)
  {
    hide Integer, Line, ReadArgs;
    var (head, at) := Line(input, 1).value;
    var count := Integer(head).value;
    if count > 0 {
      ArgsCut(input, at, count, n);
    }
    LineCut(input, 1, n);
  }

  lemma InlineCut(input: Bytes, n: nat)
    requires ParseInline(input).Done? && ParseInline(input).used <= n <= |input|
    ensures ParseInline(input[..n]) == ParseInline(input)
  {
    hide Words;
    var end := FindLf(input, 0).value;
    var cut := input[..n];
    assert forall k | 0 <= k < n :: cut[k] == input[k];
    assert FindLf(cut, 0) == Some(end);
    assert cut[..end] == input[..end];
  }

  /** A request is read as soon as its own bytes are there. */
  lemma CutKeepsRequest(input: Bytes, n: nat)
    requires Parse(input).Done? && Parse(input).used <= n <= |input|
    ensures Parse(input[..n]) == Parse(input)
  {
    hide ParseArray, ParseInline;
    assert input[..n][0] == input[0];
    if input[0] == STAR {
      ArrayCut(input, n);
    } else {
      InlineCut(input, n);
    }
  }
}
