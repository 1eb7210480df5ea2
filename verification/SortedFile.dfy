/** The layout of a sorted file, and reading it back. */
module SortedFile {
  import opened Keys
  import opened Versions
  import opened Coding
  import opened WalRecord
  import Bloom

  const BLOCK_SIZE: nat := 4096
  const FORMAT_VERSION: nat := 2
  const FOOTER_LEN: nat := 48
  const FOOTER_CHECKED: nat := 32
  const CRC_LEN: nat := 4

  function Magic(): Bytes {
    [0x4C, 0x53, 0x4D, 0x4B, 0x56, 0x53, 0x53, 0x54]
  }

  /** An index entry: where a block starts, how long it is, and its smallest key. */
  datatype BlockRef = BlockRef(firstKey: Bytes, offset: nat, len: nat)

  // ---- Layout ----

  function Records(entries: seq<Version>): Bytes {
    if entries == [] then [] else Records(entries[..|entries| - 1]) + Payload(entries[|entries| - 1])
  }

  function Checked(b: Bytes): (r: Bytes)
    ensures |r| == |b| + CRC_LEN
  {
    b + Le(Crc(b), 4)
  }

  function Block(entries: seq<Version>): (r: Bytes)
    ensures |r| >= CRC_LEN
  {
    Checked(Records(entries))
  }

  function Body(groups: seq<seq<Version>>): Bytes {
    if groups == [] then [] else Body(groups[..|groups| - 1]) + Block(groups[|groups| - 1])
  }

  function Flatten(groups: seq<seq<Version>>): seq<Version> {
    if groups == [] then [] else Flatten(groups[..|groups| - 1]) + groups[|groups| - 1]
  }

  predicate NoEmpty(groups: seq<seq<Version>>) {
    forall i | 0 <= i < |groups| :: groups[i] != []
  }

  /** Where each block starts and how long it is. */
  function Refs(groups: seq<seq<Version>>): (r: seq<BlockRef>)
    requires NoEmpty(groups)
    ensures |r| == |groups|
  {
    if groups == [] then []
    else
      var last := groups[|groups| - 1];
      Refs(groups[..|groups| - 1]) + [BlockRef(last[0].key, |Body(groups[..|groups| - 1])|, |Block(last)|)]
  }

  function RefBytes(r: BlockRef): Bytes {
    Field(r.firstKey) + (Le(r.offset, 8) + Le(r.len, 4))
  }

  function AllRefBytes(refs: seq<BlockRef>): Bytes {
    if refs == [] then [] else RefBytes(refs[0]) + AllRefBytes(refs[1..])
  }

  function IndexBody(min: Bytes, max: Bytes, refs: seq<BlockRef>): Bytes {
    Field(min) + (Field(max) + AllRefBytes(refs))
  }

  function FooterHead(indexOffset: nat, indexLen: nat, filterOffset: nat, filterLen: nat, entries: nat): (r: Bytes)
    ensures |r| == FOOTER_CHECKED
  {
    Le(indexOffset, 8) + (Le(indexLen, 4) + (Le(filterOffset, 8) + (Le(filterLen, 4) + Le(entries, 8))))
  }

  function Footer(head: Bytes): (r: Bytes)
    requires |head| == FOOTER_CHECKED
    ensures |r| == FOOTER_LEN
  {
    head + (Le(Crc(head), 4) + (Le(FORMAT_VERSION, 4) + Magic()))
  }

  function MinKey(entries: seq<Version>): Bytes {
    if entries == [] then [] else entries[0].key
  }

  function MaxKey(entries: seq<Version>): Bytes {
    if entries == [] then [] else entries[|entries| - 1].key
  }

  /** The file: data blocks, filter, index, footer. */
  function Image(groups: seq<seq<Version>>, filter: seq<bv8>): Bytes
    requires NoEmpty(groups)
  {
    var entries := Flatten(groups);
    var body, bloom := Body(groups), Checked(Bloom.AsBytes(filter));
    var index := Checked(IndexBody(MinKey(entries), MaxKey(entries), Refs(groups)));
    body + (bloom + (index + Footer(FooterHead(|body| + |bloom|, |index|, |body|, |bloom|, |entries|))))
  }

  // ---- Reading ----

  datatype Table = Table(file: Bytes, blocks: seq<BlockRef>, filter: seq<bv8>, minKey: Bytes, maxKey: Bytes,
                         entries: nat)

  function IntAt(bytes: Bytes, offset: nat, width: nat): nat
    requires offset + width <= |bytes|
  {
    FromLe(bytes[offset..offset + width])
  }

  /** The bytes at `offset`, if they are there and match the checksum that closes them. */
  function ReadChecked(file: Bytes, offset: nat, len: nat): Option<Bytes> {
    if len < CRC_LEN || offset + len > |file| then None
    else
      var bytes := file[offset..offset + len];
      var split := len - CRC_LEN;
      if Crc(bytes[..split]) != IntAt(bytes, split, 4) then None else Some(bytes[..split])
  }

  function TakeRef(cursor: Bytes): (r: Option<(BlockRef, Bytes)>)
    ensures r.Some? ==> |r.value.1| < |cursor|
  {
    match TakeField(cursor)
    case None => None
    case Some((firstKey, rest)) =>
      match TakeInt(rest, 8)
      case None => None
      case Some((offset, rest)) =>
        match TakeInt(rest, 4)
        case None => None
        case Some((len, rest)) => Some((BlockRef(firstKey, offset, len), rest))
  }

  function ParseRefs(cursor: Bytes): Option<seq<BlockRef>>
    decreases |cursor|
  {
    if cursor == [] then Some([])
    else
      match TakeRef(cursor)
      case None => None
      case Some((block, rest)) =>
        match ParseRefs(rest)
        case None => None
        case Some(blocks) => Some([block] + blocks)
  }

  function ParseIndex(cursor: Bytes): Option<(Bytes, Bytes, seq<BlockRef>)> {
    match TakeField(cursor)
    case None => None
    case Some((min, rest)) =>
      match TakeField(rest)
      case None => None
      case Some((max, rest)) =>
        match ParseRefs(rest)
        case None => None
        case Some(blocks) => Some((min, max, blocks))
  }

  predicate FooterOk(footer: Bytes)
    requires |footer| == FOOTER_LEN
  {
    && footer[FOOTER_LEN - 8..] == Magic()
    && IntAt(footer, FOOTER_LEN - 12, 4) == FORMAT_VERSION
    && Crc(footer[..FOOTER_CHECKED]) == IntAt(footer, FOOTER_CHECKED, 4)
  }

  /** Opens a file: checks the footer, loads the index and the filter. None stands for a corruption report. */
  function Opened(file: Bytes): Option<Table> {
    if |file| < FOOTER_LEN then None
    else
      var trailer := |file| - FOOTER_LEN;
      var footer := file[trailer..];
      if !FooterOk(footer) then None
      else
        var indexOffset, indexLen := IntAt(footer, 0, 8), IntAt(footer, 8, 4);
        var filterOffset, filterLen := IntAt(footer, 12, 8), IntAt(footer, 20, 4);
        if indexOffset + indexLen > trailer || filterOffset + filterLen > trailer then None
        else
          match ReadChecked(file, indexOffset, indexLen)
          case None => None
          case Some(index) =>
            match ParseIndex(index)
            case None => None
            case Some((min, max, blocks)) =>
              match ReadChecked(file, filterOffset, filterLen)
              case None => None
              case Some(stored) =>
                match Bloom.Decode(stored)
                case None => None
                case Some(filter) => Some(Table(file, blocks, filter, min, max, IntAt(footer, 24, 8)))
  }

  /** One record off the front of a block. */
  function TakeRecord(cursor: Bytes): (r: Option<(Version, Bytes)>)
    ensures r.Some? ==> |r.value.1| < |cursor|
  {
    match TakeInt(cursor, 8)
    case None => None
    case Some((seqno, rest)) =>
      match TakeInt(rest, 1)
      case None => None
      case Some((kind, rest)) =>
        match TakeField(rest)
        case None => None
        case Some((key, rest)) =>
          if kind == KIND_SET as nat then
            match TakeField(rest)
            case None => None
            case Some((value, rest)) => Some((Version(key, seqno, Some(value)), rest))
          else if kind == KIND_DELETE as nat then Some((Version(key, seqno, None), rest))
          else None
  }

  /** Walks a block for `key`, stopping at the first key past it. */
  function ScanBlock(cursor: Bytes, key: Bytes): Option<Lookup>
    decreases |cursor|
  {
    if cursor == [] then Some(Missing)
    else
      match TakeRecord(cursor)
      case None => None
      case Some((v, rest)) =>
        if Less(v.key, key) then ScanBlock(rest, key)
        else if v.key == key then Some(Shown(Some(v)))
        else Some(Missing)
  }

  /** How many leading blocks start at or before `key`. */
  function Candidates(blocks: seq<BlockRef>, key: Bytes): (n: nat)
    ensures n <= |blocks|
    ensures forall i | 0 <= i < n :: !Less(key, blocks[i].firstKey)
    ensures n < |blocks| ==> Less(key, blocks[n].firstKey)
  {
    if blocks == [] || Less(key, blocks[0].firstKey) then 0 else 1 + Candidates(blocks[1..], key)
  }

  /** A lookup: range check, filter, then the one block that can hold the key. */
  ghost function Looked(table: Table, key: Bytes): Option<Lookup>
    requires |table.filter| >= 2
  {
    if Less(key, table.minKey) || Less(table.maxKey, key) then Some(Missing)
    else if !Bloom.MayContain(table.filter, Bloom.HashOf(key)) then Some(Missing)
    else
      var n := Candidates(table.blocks, key);
      if n == 0 then Some(Missing)
      else
        match ReadChecked(table.file, table.blocks[n - 1].offset, table.blocks[n - 1].len)
        case None => None
        case Some(bytes) => ScanBlock(bytes, key)
  }
}
