/** Reading a log back after a crash cut it short anywhere, and continuing it. */
module WalReplay {
  import opened Bounds
  import opened Keys
  import opened Versions
  import opened Coding
  import opened WalRecord
  import Checksum

  const FORMAT_VERSION: nat := 2
  const FILE_HEADER_LEN: nat := 12

  function Magic(): Bytes {
    [0x4C, 0x53, 0x4D, 0x4B, 0x56, 0x57, 0x41, 0x4C]
  }

  function FileHeader(): (r: Bytes)
    ensures |r| == FILE_HEADER_LEN
  {
    Magic() + Le(FORMAT_VERSION, 4)
  }

  function Flat(records: seq<Version>): Bytes {
    if records == [] then [] else Encoding(records[0]) + Flat(records[1..])
  }

  /** The file a log of these records is. */
  function Log(records: seq<Version>): (r: Bytes)
    ensures |r| >= FILE_HEADER_LEN
  {
    FileHeader() + Flat(records)
  }

  ghost predicate Writable(records: seq<Version>) {
    forall v | v in records :: v.seqno <= U64_MAX && Encodable(v)
  }

  // ---- Reading one record ----

  function U32At(bytes: Bytes, offset: nat): nat
    requires offset + 4 <= |bytes|
  {
    FromLe(bytes[offset..offset + 4])
  }

  /** The record at `pos` and where it ends, if it is whole and intact. */
  function ReadRecord(file: Bytes, pos: nat): (r: Option<(Version, nat)>)
    requires pos <= |file|
    ensures r.Some? ==> pos < r.value.1 <= |file|
  {
    if |file| - pos < HEADER_LEN then None
    else
      var len := U32At(file, pos + 4);
      if len > |file| - pos - HEADER_LEN then None
      else
        var end := pos + HEADER_LEN + len;
        if Crc(file[pos + 4..end]) != U32At(file, pos) then None
        else
          match Decode(file[pos + HEADER_LEN..end])
          case None => None
          case Some(v) => Some((v, end))
  }

  /** What replaying from `pos` returns: the records, where the last one ends, and whether anything is left. */
  datatype Parsed = Parsed(records: seq<Version>, valid: nat, torn: bool)

  function ReplayFrom(file: Bytes, pos: nat): (r: Parsed)
    requires pos <= |file|
    ensures pos <= r.valid <= |file| && (r.torn <==> r.valid < |file|)
    decreases |file| - pos
  {
    match ReadRecord(file, pos)
    case None => Parsed([], pos, pos < |file|)
    case Some((v, next)) =>
      var r := ReplayFrom(file, next);
      Parsed([v] + r.records, r.valid, r.torn)
  }

  function Highest(records: seq<Version>, floor: nat): (r: nat)
    ensures r >= floor && forall v | v in records :: v.seqno <= r
    ensures r == floor || exists v :: v in records && v.seqno == r
  {
    if records == [] then floor
    else
      var h := Highest(records[1..], floor);
      if records[0].seqno > h then records[0].seqno else h
  }

  // ---- The reader and the recovery ----

  class Replay {
    const file: Bytes
    var reading: bool
    var pos: nat
    var tornAt: Option<nat>

    ghost predicate Valid()
      reads this
    {
      pos <= |file| && (reading ==> tornAt == None)
    }

    /** What the rest of the iteration will return. */
    ghost function Left(): Parsed
      requires Valid()
      reads this
    {
      if reading then ReplayFrom(file, pos) else Parsed([], pos, tornAt.Some?)
    }

    constructor Empty(tornAt: Option<nat>)
      ensures Valid() && !reading && pos == 0 && this.tornAt == tornAt && Left() == Parsed([], 0, tornAt.Some?)
    {
      file := [];
      reading := false;
      pos := 0;
      this.tornAt := tornAt;
    }

    constructor At(file: Bytes)
      requires |file| >= FILE_HEADER_LEN
      ensures Valid() && reading && this.file == file && pos == FILE_HEADER_LEN && tornAt == None
      ensures Left() == ReplayFrom(file, FILE_HEADER_LEN)
    {
      this.file := file;
      reading := true;
      pos := FILE_HEADER_LEN;
      tornAt := None;
    }

    method ReadOne() returns (record: Option<Version>)
      requires Valid() && reading
      modifies this
      ensures pos <= |file| && reading
      ensures var r := ReadRecord(file, old(pos));
              && (r.Some? ==> record == Some(r.value.0) && pos == r.value.1 && tornAt == None)
              && (r.None? ==> record == None && pos == old(pos))
              && (r.None? ==> tornAt == if pos < |file| then Some(pos) else None)
    {
      hide Decode, Checksum.Crc;
      var remaining := |file| - pos;
      if remaining == 0 {
        return None;
      }
      if remaining < HEADER_LEN {
        tornAt := Some(pos);
        return None;
      }
      var header := file[pos..pos + HEADER_LEN];
      var crc, len := U32At(header, 0), U32At(header, 4);
      assert header[0..4] == file[pos..pos + 4] && header[4..8] == file[pos + 4..pos + 8];
      if len > remaining - HEADER_LEN {
        tornAt := Some(pos);
        return None;
      }
      var payload := file[pos + HEADER_LEN..pos + HEADER_LEN + len];
      var actual := Checksum.Crc32Parts(Octets(header[4..]), Octets(payload));
      assert Octets(header[4..]) + Octets(payload) == Octets(file[pos + 4..pos + HEADER_LEN + len]);
      if actual as nat != crc {
        tornAt := Some(pos);
        return None;
      }
      record := Decode(payload);
      if record.None? {
        tornAt := Some(pos);
        return;
      }
      pos := pos + HEADER_LEN + len;
    }

    method Next() returns (record: Option<Version>)
      requires Valid()
      modifies this
      ensures Valid()
      ensures record.Some? ==>
                && reading && pos > old(pos)
                && old(Left()) == Parsed([record.value] + Left().records, Left().valid, Left().torn)
      ensures record.None? ==> !reading && old(Left()) == Left()
    {
      hide ReadRecord;
      if !reading {
        return None;
      }
      record := ReadOne();
      if record.None? {
        reading := false;
      }
    }
  }

  datatype Recovered = Recovered(file: Bytes, records: seq<Version>, lastSeq: nat)

  ghost predicate Recognized(file: Bytes) {
    |file| >= FILE_HEADER_LEN ==> file[..FILE_HEADER_LEN] == FileHeader()
  }

  /** What opening a log for appending leaves on disk and returns: None for a file that is not a log. */
  ghost function Recovery(file: Bytes, lastSeq: nat): Option<Recovered> {
    if |file| < FILE_HEADER_LEN then Some(Recovered(FileHeader(), [], lastSeq))
    else if !Recognized(file) then None
    else
      var p := ReplayFrom(file, FILE_HEADER_LEN);
      Some(Recovered(file[..p.valid], p.records, Highest(p.records, lastSeq)))
  }

  method Open(file: Option<Bytes>) returns (replay: Option<Replay>)
    ensures replay.None? <==> file.Some? && !Recognized(file.value)
    ensures replay.Some? ==> fresh(replay.value) && replay.value.Valid()
    ensures replay.Some? && (file.None? || |file.value| < FILE_HEADER_LEN) ==>
              replay.value.pos == 0 && replay.value.Left() == Parsed([], 0, file.Some? && file.value != [])
    ensures replay.Some? && file.Some? && |file.value| >= FILE_HEADER_LEN ==>
              replay.value.file == file.value && replay.value.Left() == ReplayFrom(file.value, FILE_HEADER_LEN)
  {
    hide ReplayFrom;
    if file.None? || file.value == [] {
      var r := new Replay.Empty(None);
      return Some(r);
    }
    var bytes := file.value;
    if |bytes| < FILE_HEADER_LEN {
      var r := new Replay.Empty(Some(0));
      return Some(r);
    }
    HeaderChecks(bytes);
    if bytes[..|Magic()|] != Magic() || U32At(bytes, |Magic()|) != FORMAT_VERSION {
      return None;
    }
    var r := new Replay.At(bytes);
    return Some(r);
  }

  lemma HeaderChecks(bytes: Bytes)
    requires |bytes| >= FILE_HEADER_LEN
    ensures Recognized(bytes) <==> bytes[..8] == Magic() && U32At(bytes, 8) == FORMAT_VERSION
  {
    Widths();
    LeRoundTrip(FORMAT_VERSION, 4);
    FromLeRoundTrip(bytes[8..12]);
    assert bytes[..12] == bytes[..8] + bytes[8..12];
    assert FileHeader()[..8] == Magic() && FileHeader()[8..12] == Le(FORMAT_VERSION, 4);
    assert bytes[..12][..8] == bytes[..8] && bytes[..12][8..12] == bytes[8..12];
  }

  method Collect(replay: Replay) returns (records: seq<Version>)
    requires replay.Valid()
    modifies replay
    ensures replay.Valid() && !replay.reading
    ensures old(replay.Left()) == Parsed(records, replay.pos, replay.tornAt.Some?)
  {
    hide ReplayFrom;
    records := [];
    var more := true;
    while more
      invariant replay.Valid()
      invariant old(replay.Left()) == Parsed(records + replay.Left().records, replay.Left().valid, replay.Left().torn)
      invariant !more ==> !replay.reading
      decreases more, |replay.file| - replay.pos
    {
      var record := replay.Next();
      if record.Some? {
        records := records + [record.value];
      } else {
        more := false;
      }
    }
  }

  method HighestOf(records: seq<Version>, lastSeq: nat) returns (highest: nat)
    ensures highest == Highest(records, lastSeq)
  {
    highest := lastSeq;
    for i := 0 to |records|
      invariant Highest(records, lastSeq) == Highest(records[i..], highest)
    {
      HighestStep(records[i..], highest);
      if records[i].seqno > highest {
        highest := records[i].seqno;
      }
    }
  }

  /** Opens the log for appending: replays it, then cuts off a torn tail or writes a fresh header. */
  method Recover(file: Option<Bytes>, lastSeq: nat) returns (r: Option<Recovered>)
    ensures r == Recovery(if file.Some? then file.value else [], lastSeq)
  {
    hide ReplayFrom, FileHeader, Highest;
    var found := Open(file);
    if found.None? {
      return None;
    }
    var replay := found.value;
    var records := Collect(replay);
    var valid, torn := replay.pos, replay.tornAt.Some?;
    var content := if file.Some? then file.value else [];
    assert content == content[..|content|];
    if valid == 0 {
      content := FileHeader();
    } else if torn {
      content := content[..valid];
    }
    var highest := HighestOf(records, lastSeq);
    NothingHighest(lastSeq);
    return Some(Recovered(content, records, highest));
  }

  lemma NothingHighest(floor: nat)
    ensures Highest([], floor) == floor
  {
  }

  lemma {:induction false} HighestStep(records: seq<Version>, floor: nat)
    requires records != []
    ensures Highest(records, floor) == Highest(records[1..], if records[0].seqno > floor then records[0].seqno
                                               else floor)
  {
    if |records| > 1 {
      HighestStep(records[1..], floor);
      HighestStep(records[1..], records[0].seqno);
    }
  }

  // ---- A log cut anywhere ----

  lemma {:induction false} FlatSplits(a: seq<Version>, b: seq<Version>)
    ensures Flat(a + b) == Flat(a) + Flat(b)
  {
    hide Encoding, Flat;
    if a == [] {
      assert a + b == b;
      NoneFits(0, 0);
      assert [] + Flat(b) == Flat(b);
    } else {
      FlatSplits(a[1..], b);
      assert (a + b)[1..] == a[1..] + b && (a + b)[0] == a[0];
      FlatFront(a);
      FlatFront(a + b);
      Associates(Encoding(a[0]), Flat(a[1..]), Flat(b));
    }
  }

  /** The parts of an encoded record, wherever it sits in a file. */
  lemma EncodingParts(file: Bytes, pos: nat, v: Version)
    requires pos + HEADER_LEN <= |file| && Encodable(v)
    requires file[pos..pos + HEADER_LEN] == Encoding(v)[..HEADER_LEN]
    ensures U32At(file, pos + 4) == |Payload(v)|
    ensures U32At(file, pos) == Crc(Le(|Payload(v)|, 4) + Payload(v))
  {
    hide Le, FromLe, Crc, Payload;
    Widths();
    var len, crc := |Payload(v)|, Crc(Le(|Payload(v)|, 4) + Payload(v));
    LeRoundTrip(len, 4);
    LeRoundTrip(crc, 4);
    var head := Encoding(v)[..HEADER_LEN];
    assert head[..4] == Le(crc, 4) && head[4..8] == Le(len, 4);
    assert file[pos..pos + 4] == file[pos..pos + HEADER_LEN][..4];
    assert file[pos + 4..pos + 8] == file[pos..pos + HEADER_LEN][4..8];
  }

  lemma ReadsWhole(file: Bytes, pos: nat, v: Version)
    requires v.seqno <= U64_MAX && Encodable(v)
    requires pos + |Encoding(v)| <= |file| && file[pos..pos + |Encoding(v)|] == Encoding(v)
    ensures ReadRecord(file, pos) == Some((v, pos + |Encoding(v)|))
  {
    hide Le, FromLe, Crc, Payload, Decode, U32At;
    var end := pos + |Encoding(v)|;
    assert file[pos..pos + HEADER_LEN] == file[pos..end][..HEADER_LEN];
    EncodingParts(file, pos, v);
    assert file[pos + HEADER_LEN..end] == file[pos..end][HEADER_LEN..];
    assert Encoding(v)[HEADER_LEN..] == Payload(v);
    assert file[pos + 4..end] == file[pos..end][4..];
    assert Encoding(v)[4..] == Le(|Payload(v)|, 4) + Payload(v);
    DecodesPayload(v);
  }

  /** A record that did not fit whole is not read, however much of it is there. */
  lemma ReadsCut(file: Bytes, pos: nat, v: Version)
    requires Encodable(v) && pos <= |file| < pos + |Encoding(v)| && file[pos..] == Encoding(v)[..|file| - pos]
    ensures ReadRecord(file, pos) == None
  {
    hide Le, FromLe, Crc, Payload, Decode, U32At;
    if |file| - pos >= HEADER_LEN {
      assert file[pos..pos + HEADER_LEN] == file[pos..][..HEADER_LEN] == Encoding(v)[..HEADER_LEN];
      EncodingParts(file, pos, v);
    }
  }

  /** `k` is how many of the records fit whole in the first `n` bytes of their encodings. */
  ghost predicate FitWhole(records: seq<Version>, n: nat, k: nat) {
    && k <= |records| && |Flat(records[..k])| <= n
    && (k < |records| ==> n < |Flat(records[..k + 1])|)
  }

  lemma OneFlat(v: Version)
    ensures Flat([v]) == Encoding(v)
  {
    hide Encoding;
    assert Flat([v]) == Encoding(v) + [];
  }

  lemma FrontFits(records: seq<Version>, k: nat)
    requires 0 < k <= |records|
    ensures |Flat(records[..k])| == |Encoding(records[0])| + |Flat(records[1..][..k - 1])|
  {
    hide Encoding;
    assert records[..k][1..] == records[1..][..k - 1];
  }

  /** With a whole first record, the others fit as they would on their own; without it, none does. */
  lemma FitsByFront(records: seq<Version>, n: nat, k: nat)
    requires records != [] && FitWhole(records, n, k)
    ensures |Encoding(records[0])| <= n ==> k > 0 && FitWhole(records[1..], n - |Encoding(records[0])|, k - 1)
    ensures |Encoding(records[0])| > n ==> k == 0
  {
    hide Encoding, Flat;
    assert records[..1] == [records[0]];
    OneFlat(records[0]);
    if k > 0 {
      FrontFits(records, k);
    }
    if k < |records| {
      FrontFits(records, k + 1);
    }
  }

  lemma PastFront(file: Bytes, pos: nat, front: Bytes, rest: Bytes)
    requires pos <= |file| && |front| <= |file| - pos <= |front| + |rest|
             && file[pos..] == (front + rest)[..|file| - pos]
    ensures file[pos..pos + |front|] == front
    ensures file[pos + |front|..] == rest[..|file| - pos - |front|]
  {
    assert file[pos..pos + |front|] == file[pos..][..|front|];
    assert file[pos + |front|..] == file[pos..][|front|..];
  }

  lemma WithinFront(file: Bytes, pos: nat, front: Bytes, rest: Bytes)
    requires pos <= |file| && |file| - pos < |front| && file[pos..] == (front + rest)[..|file| - pos]
    ensures file[pos..] == front[..|file| - pos]
  {
  }

  lemma ReplaySteps(file: Bytes, pos: nat)
    requires pos <= |file|
    ensures var r := ReadRecord(file, pos);
            && (r.None? ==> ReplayFrom(file, pos) == Parsed([], pos, pos < |file|))
            && (r.Some? ==> var p := ReplayFrom(file, r.value.1);
                  ReplayFrom(file, pos) == Parsed([r.value.0] + p.records, p.valid, p.torn))
  {
    hide ReadRecord;
  }

  lemma FlatFront(records: seq<Version>)
    requires records != []
    ensures Flat(records) == Encoding(records[0]) + Flat(records[1..])
  {
    hide Encoding;
  }

  lemma WritableParts(records: seq<Version>)
    requires Writable(records) && records != []
    ensures records[0].seqno <= U64_MAX && Encodable(records[0]) && Writable(records[1..])
  {
  }

  ghost function Whole(file: Bytes, pos: nat, records: seq<Version>, k: nat): Parsed
    requires k <= |records|
  {
    var end := pos + |Flat(records[..k])|;
    Parsed(records[..k], end, end < |file|)
  }

  lemma FrontRead(file: Bytes, pos: nat, records: seq<Version>, k: nat)
    requires 0 < k <= |records| && pos <= |file|
    requires var e := |Encoding(records[0])|;
             && ReadRecord(file, pos) == Some((records[0], pos + e))
             && ReplayFrom(file, pos + e) == Whole(file, pos + e, records[1..], k - 1)
    ensures ReplayFrom(file, pos) == Whole(file, pos, records, k)
  {
    hide Le, FromLe, Encoding, Payload, Flat, ReadRecord, ReplayFrom;
    ReplaySteps(file, pos);
    FrontFits(records, k);
    assert records[..k] == [records[0]] + records[1..][..k - 1];
  }

  /** Replay of a cut stretch of records returns exactly those that fit whole. */
  lemma {:induction false} CutReplays(file: Bytes, pos: nat, records: seq<Version>, k: nat)
    requires Writable(records) && pos <= |file| && |file| - pos <= |Flat(records)|
    requires file[pos..] == Flat(records)[..|file| - pos] && FitWhole(records, |file| - pos, k)
    ensures k <= |records| && ReplayFrom(file, pos) == Whole(file, pos, records, k)
    decreases |records|
  {
    hide Le, FromLe, Encoding, Payload, ReadRecord, ReplayFrom, Writable, FitWhole, Flat, Whole;
    if records == [] || |file| - pos < |Encoding(records[0])| {
      StopsShort(file, pos, records, k);
      ReplaySteps(file, pos);
    } else {
      WritableParts(records);
      FlatFront(records);
      FitsByFront(records, |file| - pos, k);
      FitsSome(records, |file| - pos, k);
      PastFront(file, pos, Encoding(records[0]), Flat(records[1..]));
      ReadsWhole(file, pos, records[0]);
      CutReplays(file, pos + |Encoding(records[0])|, records[1..], k - 1);
      FrontRead(file, pos, records, k);
    }
  }

  lemma FitsSome(records: seq<Version>, n: nat, k: nat)
    requires FitWhole(records, n, k)
    ensures k <= |records|
  {
  }

  lemma StopsShort(file: Bytes, pos: nat, records: seq<Version>, k: nat)
    requires Writable(records) && pos <= |file| && |file| - pos <= |Flat(records)|
    requires file[pos..] == Flat(records)[..|file| - pos] && FitWhole(records, |file| - pos, k)
    requires records == [] || |file| - pos < |Encoding(records[0])|
    ensures k == 0 && ReadRecord(file, pos) == None && Whole(file, pos, records, 0) == Parsed([], pos, pos < |file|)
  {
    hide Encoding, ReadRecord, Flat, FitWhole, Writable;
    assert records[..0] == [];
    NoneFits(|file| - pos, k);
    if records == [] {
      NothingToRead(file, pos);
    } else {
      WritableParts(records);
      FlatFront(records);
      FitsByFront(records, |file| - pos, k);
      WithinFront(file, pos, Encoding(records[0]), Flat(records[1..]));
      ReadsCut(file, pos, records[0]);
    }
  }

  lemma NothingToRead(file: Bytes, pos: nat)
    requires pos == |file|
    ensures ReadRecord(file, pos) == None
  {
  }

  lemma NoneFits(n: nat, k: nat)
    ensures Flat([]) == []
    ensures FitWhole([], n, k) ==> k == 0
  {
  }

  /** Every cut leaves some number of whole records. */
  lemma {:induction false} SomeFit(records: seq<Version>, n: nat) returns (k: nat)
    ensures FitWhole(records, n, k)
    decreases |records|
  {
    hide Le, Payload, Encoding, Flat;
    NoneFits(n, 0);
    assert records[..0] == [];
    if records == [] {
      return 0;
    }
    assert records[..1] == [records[0]];
    OneFlat(records[0]);
    if |Encoding(records[0])| > n {
      return 0;
    }
    var rest := SomeFit(records[1..], n - |Encoding(records[0])|);
    k := rest + 1;
    FrontFits(records, k);
    if k < |records| {
      FrontFits(records, k + 1);
    }
  }

  /** However many bytes of a log survive, opening it gives the records that survived whole, on disk and in memory. */
  lemma CutLogRecovers(records: seq<Version>, n: nat, k: nat, lastSeq: nat)
    requires Writable(records) && n <= |Log(records)|
    requires if n < FILE_HEADER_LEN then k == 0 else FitWhole(records, n - FILE_HEADER_LEN, k)
    ensures Recovery(Log(records)[..n], lastSeq) == Some(Recovered(Log(records[..k]), records[..k],
                                                                   Highest(records[..k], lastSeq)))
  {
    hide ReplayFrom, FileHeader, Flat, Writable, Highest;
    if n < FILE_HEADER_LEN {
      NothingHighest(lastSeq);
      NoneFits(0, 0);
      assert records[..0] == [];
      assert FileHeader() + [] == FileHeader();
    } else {
      assert k <= |records|;
      HeaderOff(records, n);
      CutReplays(Log(records)[..n], FILE_HEADER_LEN, records, k);
      KeptBytes(records, n, k);
    }
  }

  lemma HeaderOff(records: seq<Version>, n: nat)
    requires FILE_HEADER_LEN <= n <= |Log(records)|
    ensures Log(records)[..n][..FILE_HEADER_LEN] == FileHeader()
    ensures Log(records)[..n][FILE_HEADER_LEN..] == Flat(records)[..n - FILE_HEADER_LEN]
  {
    hide FileHeader, Flat;
  }

  lemma KeptBytes(records: seq<Version>, n: nat, k: nat)
    requires k <= |records| && FILE_HEADER_LEN + |Flat(records[..k])| <= n <= |Log(records)|
    ensures Log(records)[..n][..FILE_HEADER_LEN + |Flat(records[..k])|] == Log(records[..k])
  {
    hide FileHeader, Flat;
    assert records == records[..k] + records[k..];
    FlatSplits(records[..k], records[k..]);
  }

  lemma WholeLog(records: seq<Version>, lastSeq: nat)
    requires Writable(records)
    ensures Recovery(Log(records), lastSeq) == Some(Recovered(Log(records), records, Highest(records, lastSeq)))
  {
    assert Log(records)[..|Log(records)|] == Log(records) && records[..|records|] == records;
    CutLogRecovers(records, |Log(records)|, |records|, lastSeq);
  }

  /** A log cut short, opened, appended to and opened again holds what survived followed by what was appended. */
  lemma RecoverThenAppend(records: seq<Version>, n: nat, k: nat, lastSeq: nat, more: seq<Version>, lastSeq': nat)
    requires Writable(records) && Writable(more) && n <= |Log(records)|
    requires if n < FILE_HEADER_LEN then k == 0 else FitWhole(records, n - FILE_HEADER_LEN, k)
    ensures var first := Recovery(Log(records)[..n], lastSeq);
            && first.Some?
            && var again := Recovery(first.value.file + Flat(more), lastSeq');
            && again.Some? && again.value.records == records[..k] + more && again.value.file == Log(records[..k] + more)
  {
    hide Recovery, Flat, Le, Payload, FileHeader;
    CutLogRecovers(records, n, k, lastSeq);
    FlatSplits(records[..k], more);
    assert Log(records[..k]) + Flat(more) == Log(records[..k] + more);
    WholeLog(records[..k] + more, lastSeq');
  }
}
