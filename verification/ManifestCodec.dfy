/** The manifest's bytes: decoding accepts the encoding of a snapshot and nothing else. */
module ManifestCodec {
  import opened Bounds
  import opened Keys
  import opened Versions
  import opened Coding
  import opened WalRecord
  import Checksum

  const FORMAT_VERSION: nat := 1

  function Magic(): Bytes {
    [0x4C, 0x53, 0x4D, 0x4B, 0x56, 0x4D, 0x41, 0x4E]
  }

  /** What the manifest records about one file. */
  datatype Meta = Meta(number: nat, level: nat, minKey: Bytes, maxKey: Bytes, bytes: nat, entries: nat)

  datatype Snapshot = Snapshot(files: seq<Meta>, lastSeq: nat, nextNumber: nat)

  /** The integer fields are 64 bits wide by type; these are the lengths encoding checks. */
  predicate Fits(m: Meta) {
    m.level <= U32_MAX && |m.minKey| <= U32_MAX && |m.maxKey| <= U32_MAX
  }

  predicate Typed(m: Meta) {
    m.number <= U64_MAX && m.bytes <= U64_MAX && m.entries <= U64_MAX
  }

  ghost predicate Encodable(s: Snapshot) {
    |s.files| <= U32_MAX && forall i | 0 <= i < |s.files| :: Fits(s.files[i])
  }

  ghost predicate WellTyped(s: Snapshot) {
    s.lastSeq <= U64_MAX && s.nextNumber <= U64_MAX && forall i | 0 <= i < |s.files| :: Typed(s.files[i])
  }

  function MetaBytes(m: Meta): Bytes {
    Le(m.number, 8) + (Le(m.level, 4) + (Le(m.bytes, 8) + (Le(m.entries, 8) + (Field(m.minKey) + Field(m.maxKey)))))
  }

  function AllMetaBytes(files: seq<Meta>): Bytes {
    if files == [] then [] else MetaBytes(files[0]) + AllMetaBytes(files[1..])
  }

  function Body(s: Snapshot): Bytes {
    Magic() + (Le(FORMAT_VERSION, 4) + (Le(s.lastSeq, 8)
                                        + (Le(s.nextNumber, 8) + (Le(|s.files|, 4) + AllMetaBytes(s.files)))))
  }

  function Encoding(s: Snapshot): Bytes {
    Body(s) + Le(Crc(Body(s)), 4)
  }

  // ---- Decoding ----

  function TakeMeta(cursor: Bytes): Option<(Meta, Bytes)> {
    match TakeInt(cursor, 8)
    case None => None
    case Some((number, rest)) =>
      match TakeInt(rest, 4)
      case None => None
      case Some((level, rest)) =>
        match TakeInt(rest, 8)
        case None => None
        case Some((bytes, rest)) =>
          match TakeInt(rest, 8)
          case None => None
          case Some((entries, rest)) =>
            match TakeField(rest)
            case None => None
            case Some((minKey, rest)) =>
              match TakeField(rest)
              case None => None
              case Some((maxKey, rest)) => Some((Meta(number, level, minKey, maxKey, bytes, entries), rest))
  }

  function TakeMetas(cursor: Bytes, count: nat): Option<(seq<Meta>, Bytes)> {
    if count == 0 then Some(([], cursor))
    else
      match TakeMeta(cursor)
      case None => None
      case Some((m, rest)) =>
        match TakeMetas(rest, count - 1)
        case None => None
        case Some((files, rest)) => Some(([m] + files, rest))
  }

  function DecodeBody(body: Bytes): Option<Snapshot> {
    match Take(body, 8)
    case None => None
    case Some((magic, rest)) =>
      if magic != Magic() then None
      else
        match TakeInt(rest, 4)
        case None => None
        case Some((version, rest)) =>
          if version != FORMAT_VERSION then None
          else
            match TakeInt(rest, 8)
            case None => None
            case Some((lastSeq, rest)) =>
              match TakeInt(rest, 8)
              case None => None
              case Some((nextNumber, rest)) =>
                match TakeInt(rest, 4)
                case None => None
                case Some((count, rest)) =>
                  match TakeMetas(rest, count)
                  case None => None
                  case Some((files, rest)) => if rest == [] then Some(Snapshot(files, lastSeq, nextNumber)) else None
  }

  function Decode(bytes: Bytes): Option<Snapshot> {
    if |bytes| < 4 then None
    else
      var split := |bytes| - 4;
      if Crc(bytes[..split]) != FromLe(bytes[split..]) then None else DecodeBody(bytes[..split])
  }

  // ---- Encoding ----

  /** Appends field after field; None if a length does not fit. */
  method Encode(s: Snapshot) returns (bytes: Option<Bytes>)
    ensures bytes == if Encodable(s) then Some(Encoding(s)) else None
  {
    hide Le, Crc, Fits;
    var buf := Magic() + (Le(FORMAT_VERSION, 4) + (Le(s.lastSeq, 8) + Le(s.nextNumber, 8)));
    if |s.files| > U32_MAX {
      return None;
    }
    buf := buf + Le(|s.files|, 4);
    Started(s, buf);
    for i := 0 to |s.files|
      invariant forall j | 0 <= j < i :: Fits(s.files[j])
      invariant buf + AllMetaBytes(s.files[i..]) == Body(s)
    {
      var m := s.files[i];
      if !Fits(m) {
        return None;
      }
      OneMore(buf, s.files[i..]);
      assert s.files[i..][1..] == s.files[i + 1..];
      buf := buf + MetaBytes(m);
    }
    assert s.files[|s.files|..] == [] && buf + [] == buf;
    var crc := Checksum.Crc32(Octets(buf));
    CrcIs(buf, crc);
    return Some(buf + Le(crc as nat, 4));
  }

  lemma CrcIs(b: Bytes, crc: bv32)
    requires crc == Checksum.Crc(Octets(b))
    ensures crc as nat == Crc(b)
  {
    hide Checksum.Crc, Octets;
  }

  lemma Started(s: Snapshot, buf: Bytes)
    requires buf == Magic() + (Le(FORMAT_VERSION, 4) + (Le(s.lastSeq, 8) + Le(s.nextNumber, 8))) + Le(|s.files|, 4)
    ensures buf + AllMetaBytes(s.files[0..]) == Body(s)
  {
    hide Le, AllMetaBytes;
    assert s.files[0..] == s.files;
  }

  lemma OneMore(buf: Bytes, files: seq<Meta>)
    requires files != []
    ensures buf + AllMetaBytes(files) == (buf + MetaBytes(files[0])) + AllMetaBytes(files[1..])
  {
    hide MetaBytes;
  }

  // ---- Round trips ----

  lemma TakesMeta(m: Meta, rest: Bytes)
    requires Fits(m) && Typed(m)
    ensures TakeMeta(MetaBytes(m) + rest) == Some((m, rest))
  {
    hide Le, FromLe, Pow256, TakeInt, TakeField, Field;
    Widths();
    var e := Field(m.minKey) + (Field(m.maxKey) + rest);
    var d := Le(m.entries, 8) + e;
    var c := Le(m.bytes, 8) + d;
    var b := Le(m.level, 4) + c;
    assert MetaBytes(m) + rest == Le(m.number, 8) + b;
    TakesInt(m.number, 8, b);
    TakesInt(m.level, 4, c);
    TakesInt(m.bytes, 8, d);
    TakesInt(m.entries, 8, e);
    TakesField(m.minKey, Field(m.maxKey) + rest);
    TakesField(m.maxKey, rest);
  }

  lemma MetaTaken(cursor: Bytes)
    ensures var t := TakeMeta(cursor); t.Some? ==>
              Fits(t.value.0) && Typed(t.value.0) && cursor == MetaBytes(t.value.0) + t.value.1
  {
    hide Le, FromLe, Pow256, TakeInt, TakeField, Field;
    var t := TakeMeta(cursor);
    if t.Some? {
      Widths();
      var (number, a) := TakeInt(cursor, 8).value;
      var (level, b) := TakeInt(a, 4).value;
      var (bytes, c) := TakeInt(b, 8).value;
      var (entries, d) := TakeInt(c, 8).value;
      var (minKey, e) := TakeField(d).value;
      IntTaken(cursor, 8);
      IntTaken(a, 4);
      IntTaken(b, 8);
      IntTaken(c, 8);
      FieldTaken(d);
      FieldTaken(e);
      var m, rest := t.value.0, t.value.1;
      assert cursor == Le(number, 8) + (Le(level, 4)
                                        + (Le(bytes, 8) + (Le(entries, 8) + (Field(minKey)
                                                                             + (Field(m.maxKey) + rest)))));
    }
  }

  lemma {:induction false} TakesMetas(files: seq<Meta>, rest: Bytes)
    requires forall i | 0 <= i < |files| :: Fits(files[i]) && Typed(files[i])
    ensures TakeMetas(AllMetaBytes(files) + rest, |files|) == Some((files, rest))
  {
    hide TakeMeta, MetaBytes, Fits, Typed;
    if files == [] {
      assert [] + rest == rest;
    } else {
      assert AllMetaBytes(files) + rest == MetaBytes(files[0]) + (AllMetaBytes(files[1..]) + rest);
      TakesMeta(files[0], AllMetaBytes(files[1..]) + rest);
      TakesMetas(files[1..], rest);
      assert files == [files[0]] + files[1..];
    }
  }

  lemma {:induction false} MetasTaken(cursor: Bytes, count: nat)
    ensures var t := TakeMetas(cursor, count);
            t.Some? ==> |t.value.0| == count && cursor == AllMetaBytes(t.value.0) + t.value.1
                        && forall i | 0 <= i < |t.value.0| :: Fits(t.value.0[i]) && Typed(t.value.0[i])
    decreases count
  {
    hide TakeMeta, MetaBytes, Fits, Typed;
    var t := TakeMetas(cursor, count);
    if count == 0 {
      assert [] + cursor == cursor;
    } else if t.Some? {
      MetaTaken(cursor);
      var (m, rest) := TakeMeta(cursor).value;
      MetasTaken(rest, count - 1);
      var (files, left) := TakeMetas(rest, count - 1).value;
      assert ([m] + files)[1..] == files;
      assert MetaBytes(m) + (AllMetaBytes(files) + left) == (MetaBytes(m) + AllMetaBytes(files)) + left;
    }
  }

  lemma DecodesBody(s: Snapshot)
    requires Encodable(s) && WellTyped(s)
    ensures DecodeBody(Body(s)) == Some(s)
  {
    hide Le, FromLe, Pow256, TakeInt, TakeMetas, AllMetaBytes, Fits, Typed;
    Widths();
    var d := Le(|s.files|, 4) + AllMetaBytes(s.files);
    var c := Le(s.nextNumber, 8) + d;
    var b := Le(s.lastSeq, 8) + c;
    var a := Le(FORMAT_VERSION, 4) + b;
    assert Body(s)[..8] == Magic() && Body(s)[8..] == a;
    TakesInt(FORMAT_VERSION, 4, b);
    TakesInt(s.lastSeq, 8, c);
    TakesInt(s.nextNumber, 8, d);
    TakesInt(|s.files|, 4, AllMetaBytes(s.files));
    assert AllMetaBytes(s.files) + [] == AllMetaBytes(s.files);
    TakesMetas(s.files, []);
  }

  lemma BodyDecoded(body: Bytes)
    ensures var s := DecodeBody(body); s.Some? ==> Encodable(s.value) && WellTyped(s.value) && Body(s.value) == body
  {
    hide Le, FromLe, Pow256, TakeInt, TakeMetas, AllMetaBytes, Fits, Typed;
    var s := DecodeBody(body);
    if s.Some? {
      Widths();
      var (magic, a) := Take(body, 8).value;
      var (version, b) := TakeInt(a, 4).value;
      var (lastSeq, c) := TakeInt(b, 8).value;
      var (nextNumber, d) := TakeInt(c, 8).value;
      var (count, e) := TakeInt(d, 4).value;
      IntTaken(a, 4);
      IntTaken(b, 8);
      IntTaken(c, 8);
      IntTaken(d, 4);
      MetasTaken(e, count);
      assert body == magic + a;
      assert AllMetaBytes(s.value.files) + [] == AllMetaBytes(s.value.files);
    }
  }

  /** Storing and loading a snapshot gives it back. */
  lemma DecodesEncoding(s: Snapshot)
    requires Encodable(s) && WellTyped(s)
    ensures Decode(Encoding(s)) == Some(s)
  {
    hide Le, FromLe, Pow256, Crc, DecodeBody, Body;
    Widths();
    var bytes, split := Encoding(s), |Body(s)|;
    assert bytes[..split] == Body(s) && bytes[split..] == Le(Crc(Body(s)), 4);
    LeRoundTrip(Crc(Body(s)), 4);
    DecodesBody(s);
  }

  /** Whatever decodes is the encoding of what it decodes to. */
  lemma DecodedIsEncoding(bytes: Bytes)
    ensures var s := Decode(bytes); s.Some? ==> Encodable(s.value) && WellTyped(s.value) && Encoding(s.value) == bytes
  {
    hide Le, FromLe, Pow256, Crc, DecodeBody, Body, Encodable, WellTyped;
    if Decode(bytes).Some? {
      var split := |bytes| - 4;
      BodyDecoded(bytes[..split]);
      FromLeRoundTrip(bytes[split..]);
      assert bytes == bytes[..split] + bytes[split..];
    }
  }
}
