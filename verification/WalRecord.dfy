/** One log record: checksum, length, and a payload naming a mutation. */
module WalRecord {
  import opened Bounds
  import opened Keys
  import opened Versions
  import opened Coding
  import Checksum

  const HEADER_LEN: nat := 8
  const KIND_SET: byte := 0
  const KIND_DELETE: byte := 1

  function Octets(b: Bytes): (r: seq<bv8>)
    ensures |r| == |b|
  {
    seq(|b|, i requires 0 <= i < |b| => b[i] as bv8)
  }

  function Crc(b: Bytes): (c: nat)
    ensures c <= U32_MAX
  {
    Checksum.Crc(Octets(b)) as nat
  }

  function Payload(v: Version): (r: Bytes)
    ensures |r| >= 13
  {
    match v.value
    case Some(value) => Le(v.seqno, 8) + [KIND_SET] + Field(v.key) + Field(value)
    case None => Le(v.seqno, 8) + [KIND_DELETE] + Field(v.key)
  }

  /** The lengths a record can express. */
  predicate Encodable(v: Version) {
    && |v.key| <= U32_MAX && (v.value.Some? ==> |v.value.value| <= U32_MAX)
    && |Payload(v)| <= U32_MAX
  }

  function Framed(payload: Bytes): (r: Bytes)
    ensures |r| == HEADER_LEN + |payload|
  {
    Le(Crc(Le(|payload|, 4) + payload), 4) + Le(|payload|, 4) + payload
  }

  function Encoding(v: Version): (r: Bytes)
    ensures |r| == HEADER_LEN + |Payload(v)| > 0
  {
    Framed(Payload(v))
  }

  function Decode(payload: Bytes): Option<Version> {
    match TakeInt(payload, 8)
    case None => None
    case Some((seqno, rest)) =>
      match TakeInt(rest, 1)
      case None => None
      case Some((kind, rest)) =>
        match TakeField(rest)
        case None => None
        case Some((key, rest)) =>
          if kind == KIND_SET as nat then
            match TakeField(rest)
            case None => None
            case Some((value, rest)) => if rest == [] then Some(Version(key, seqno, Some(value))) else None
          else if kind == KIND_DELETE as nat then
            if rest == [] then Some(Version(key, seqno, None)) else None
          else None
  }

  /** Decoding accepts the payload of a version, and nothing else. */
  lemma DecodesPayload(v: Version)
    requires v.seqno <= U64_MAX && Encodable(v)
    ensures Decode(Payload(v)) == Some(v)
  {
    hide Le, FromLe, Pow256;
    Widths();
    var kind := if v.value.Some? then KIND_SET else KIND_DELETE;
    var last := if v.value.Some? then Field(v.value.value) else [];
    assert Payload(v) == Le(v.seqno, 8) + ([kind] + (Field(v.key) + last));
    TakesInt(v.seqno, 8, [kind] + (Field(v.key) + last));
    TakesKind(kind, Field(v.key) + last);
    TakesField(v.key, last);
    if v.value.Some? {
      TakesField(v.value.value, []);
      assert last + [] == last;
    }
  }

  lemma TakesKind(kind: byte, rest: Bytes)
    ensures TakeInt([kind] + rest, 1) == Some((kind as nat, rest))
  {
    assert ([kind] + rest)[..1] == [kind] && ([kind] + rest)[1..] == rest;
    assert FromLe([kind]) == kind as nat;
  }

  lemma KindTaken(cursor: Bytes)
    ensures var t := TakeInt(cursor, 1); t.Some? ==> t.value.0 < 256 && cursor == [t.value.0 as byte] + t.value.1
  {
    if |cursor| >= 1 {
      assert cursor[..1] == [cursor[0]];
      assert FromLe([cursor[0]]) == cursor[0] as nat;
      assert cursor == [cursor[0]] + cursor[1..];
    }
  }

  lemma DecodedIsPayload(payload: Bytes)
    ensures var v := Decode(payload); v.Some? ==> v.value.seqno <= U64_MAX && Payload(v.value) == payload
  {
    hide Le, FromLe, Pow256, TakeInt, TakeField, Field;
    var v := Decode(payload);
    if v.Some? {
      Widths();
      IntTaken(payload, 8);
      var (seqno, rest) := TakeInt(payload, 8).value;
      KindTaken(rest);
      var (kind, rest') := TakeInt(rest, 1).value;
      FieldTaken(rest');
      var (key, rest'') := TakeField(rest').value;
      FieldTaken(rest'');
      assert payload == Le(seqno, 8) + ([kind as byte] + (Field(key) + rest''));
      if kind == KIND_SET as nat {
        assert rest'' == Field(v.value.value.value) + [];
      }
    }
  }

  method CrcOf(b: Bytes) returns (crc: nat)
    ensures crc == Crc(b)
  {
    var c := Checksum.Crc32(Octets(b));
    crc := c as nat;
  }

  lemma FramedIs(payload: Bytes)
    ensures Framed(payload) == Le(Crc(Le(|payload|, 4) + payload), 4) + Le(|payload|, 4) + payload
  {
    hide Le, Crc;
  }

  /** The append buffer records are encoded into. */
  class LogBuffer {
    var bytes: Bytes

    constructor ()
      ensures bytes == []
    {
      bytes := [];
    }

    /** Appends one record, or leaves the buffer as it was if a length does not fit. */
    method Encode(v: Version) returns (ok: bool)
      modifies this
      ensures ok <==> Encodable(v)
      ensures bytes == if ok then old(bytes) + Encoding(v) else old(bytes)
    {
      var start := |bytes|;
      ok := EncodeAt(start, v);
      if !ok {
        bytes := bytes[..start];
      }
    }

    /** Writes the record past `start`, then patches its header in place. */
    method EncodeAt(start: nat, v: Version) returns (ok: bool)
      requires start == |bytes|
      modifies this
      ensures ok <==> Encodable(v)
      ensures |bytes| >= start && bytes[..start] == old(bytes)
      ensures ok ==> bytes == old(bytes) + Encoding(v)
    {
      hide Le, Payload, Framed;
      ghost var before := bytes;
      if |v.key| > U32_MAX {
        return false;
      }
      bytes := bytes + [0, 0, 0, 0, 0, 0, 0, 0];
      ok := PushPayload(v);
      assert bytes[..start] == before;
      if ok {
        ok := PatchHeader(start, before, Payload(v));
      }
    }

    method PushPayload(v: Version) returns (ok: bool)
      requires |v.key| <= U32_MAX
      modifies this
      ensures ok <==> v.value.Some? ==> |v.value.value| <= U32_MAX
      ensures old(bytes) <= bytes && (ok ==> bytes == old(bytes) + Payload(v))
    {
      hide Le;
      ghost var before := bytes;
      bytes := bytes + Le(v.seqno, 8);
      if v.value.Some? {
        if |v.value.value| > U32_MAX {
          return false;
        }
        bytes := bytes + [KIND_SET];
        bytes := bytes + Le(|v.key|, 4);
        bytes := bytes + v.key;
        bytes := bytes + Le(|v.value.value|, 4);
        bytes := bytes + v.value.value;
      } else {
        bytes := bytes + [KIND_DELETE];
        bytes := bytes + Le(|v.key|, 4);
        bytes := bytes + v.key;
      }
      assert bytes == before + Payload(v);
      return true;
    }

    /** Length and checksum, over the zeros that hold their place. */
    method PatchHeader(start: nat, ghost before: Bytes, ghost payload: Bytes) returns (ok: bool)
      requires |before| == start && bytes == before + [0, 0, 0, 0, 0, 0, 0, 0] + payload
      modifies this
      ensures ok <==> |payload| <= U32_MAX
      ensures before <= bytes && (ok ==> bytes == before + Framed(payload))
    {
      hide Le, Crc, Framed;
      assert bytes[start + HEADER_LEN..] == payload;
      var payloadLen := |bytes[start + HEADER_LEN..]|;
      if payloadLen > U32_MAX {
        return false;
      }
      Patched(before, bytes, payload, Le(payloadLen, 4));
      bytes := bytes[..start + 4] + Le(payloadLen, 4) + bytes[start + 8..];
      var crc := CrcOf(bytes[start + 4..]);
      CrcPatched(before, bytes, payload, Le(payloadLen, 4), Le(crc, 4));
      FramedIs(payload);
      bytes := bytes[..start] + Le(crc, 4) + bytes[start + 4..];
      return true;
    }
  }

  lemma Patched(before: Bytes, bytes: Bytes, payload: Bytes, len: Bytes)
    requires bytes == before + [0, 0, 0, 0, 0, 0, 0, 0] + payload && |len| == 4
    ensures var patched := bytes[..|before| + 4] + len + bytes[|before| + 8..];
            patched == before + [0, 0, 0, 0] + len + payload
  {
  }

  lemma CrcPatched(before: Bytes, bytes: Bytes, payload: Bytes, len: Bytes, crc: Bytes)
    requires bytes == before + [0, 0, 0, 0] + len + payload && |len| == |crc| == 4
    ensures bytes[|before| + 4..] == len + payload
    ensures bytes[..|before|] + crc + bytes[|before| + 4..] == before + (crc + len + payload)
  {
  }
}
