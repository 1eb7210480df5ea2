/** Opening a sorted file, looking keys up in it and scanning it. */
module SortedFileScan {
  import opened Bounds
  import opened Keys
  import opened Versions
  import opened Coding
  import opened WalRecord
  import opened Merge
  import opened SortedFile
  import opened SortedFileReads
  import opened SortedFileBlocks
  import opened SortedFileTable
  import Bloom

  // ---- Loops over a cursor ----

  method ParseBlocks(bytes: Bytes) returns (blocks: Option<seq<BlockRef>>)
    ensures blocks == ParseRefs(bytes)
  {
    hide TakeRef;
    var cursor: Bytes, found: seq<BlockRef> := bytes, [];
    assert ParseRefs(bytes).Some? ==> found + ParseRefs(bytes).value == ParseRefs(bytes).value;
    while cursor != []
      invariant ParseRefs(bytes) == match ParseRefs(cursor) case None => None case Some(rest) => Some(found + rest)
      decreases |cursor|
    {
      var taken := TakeRef(cursor);
      if taken.None? {
        return None;
      }
      ghost var rest := ParseRefs(taken.value.1);
      if rest.Some? {
        assert found + ([taken.value.0] + rest.value) == (found + [taken.value.0]) + rest.value;
      }
      found := found + [taken.value.0];
      cursor := taken.value.1;
    }
    assert found + [] == found;
    return Some(found);
  }

  method Search(bytes: Bytes, key: Bytes) returns (found: Option<Lookup>)
    ensures found == ScanBlock(bytes, key)
  {
    hide TakeRecord, Less;
    var cursor := bytes;
    while cursor != []
      invariant ScanBlock(bytes, key) == ScanBlock(cursor, key)
      decreases |cursor|
    {
      var taken := TakeRecord(cursor);
      if taken.None? {
        return None;
      }
      var v := taken.value.0;
      cursor := taken.value.1;
      if !Less(v.key, key) {
        if v.key == key {
          return Some(if v.value.Some? then Found(v.value.value) else Deleted);
        }
        return Some(Missing);
      }
    }
    return Some(Missing);
  }

  /** First keys in increasing order, as an index holds them. */
  ghost predicate Indexed(blocks: seq<BlockRef>) {
    forall i, j | 0 <= i < j < |blocks| :: Less(blocks[i].firstKey, blocks[j].firstKey)
  }

  /** How many blocks start at or before `key`, found by halving an index that is in order. */
  method PartitionPoint(blocks: seq<BlockRef>, key: Bytes) returns (n: nat)
    ensures n <= |blocks| && (Indexed(blocks) ==> n == Candidates(blocks, key))
  {
    hide Less, Indexed;
    var low, high := 0, |blocks|;
    while low < high
      invariant 0 <= low <= high <= |blocks|
      invariant Indexed(blocks) ==> forall i | 0 <= i < low :: !Less(key, blocks[i].firstKey)
      invariant Indexed(blocks) ==> forall i | high <= i < |blocks| :: Less(key, blocks[i].firstKey)
    {
      var mid := (low + high) / 2;
      if Less(key, blocks[mid].firstKey) {
        if Indexed(blocks) {
          AllAfter(blocks, key, mid);
        }
        high := mid;
      } else {
        if Indexed(blocks) {
          AllBefore(blocks, key, mid);
        }
        low := mid + 1;
      }
    }
    n := low;
    if Indexed(blocks) {
      CountIs(blocks, key, n);
    }
  }

  lemma AllAfter(blocks: seq<BlockRef>, key: Bytes, mid: nat)
    requires Indexed(blocks) && mid < |blocks| && Less(key, blocks[mid].firstKey)
    ensures forall i | mid <= i < |blocks| :: Less(key, blocks[i].firstKey)
  {
    KeyOrder();
    forall i | mid < i < |blocks|
      ensures Less(key, blocks[i].firstKey)
    {
      assert Less(blocks[mid].firstKey, blocks[i].firstKey);
    }
  }

  lemma AllBefore(blocks: seq<BlockRef>, key: Bytes, mid: nat)
    requires Indexed(blocks) && mid < |blocks| && !Less(key, blocks[mid].firstKey)
    ensures forall i | 0 <= i <= mid :: !Less(key, blocks[i].firstKey)
  {
    KeyOrder();
    forall i | 0 <= i < mid
      ensures !Less(key, blocks[i].firstKey)
    {
      assert Less(blocks[i].firstKey, blocks[mid].firstKey);
    }
  }

  lemma CountIs(blocks: seq<BlockRef>, key: Bytes, n: nat)
    requires n <= |blocks| && (forall i | 0 <= i < n :: !Less(key, blocks[i].firstKey))
    requires forall i | n <= i < |blocks| :: Less(key, blocks[i].firstKey)
    ensures n == Candidates(blocks, key)
  {
    if n < |blocks| {
      assert Less(key, blocks[n].firstKey);
    }
  }

  // ---- Open and get ----

  method Open(file: Bytes) returns (table: Option<Table>)
    ensures table == Opened(file)
  {
    hide FooterOk, IntAt, ReadChecked, Bloom.Decode, ParseRefs, TakeField;
    if |file| < FOOTER_LEN {
      return None;
    }
    var trailer := |file| - FOOTER_LEN;
    var footer := file[trailer..];
    if !FooterOk(footer) {
      return None;
    }
    var indexOffset, indexLen := IntAt(footer, 0, 8), IntAt(footer, 8, 4);
    var filterOffset, filterLen := IntAt(footer, 12, 8), IntAt(footer, 20, 4);
    if indexOffset + indexLen > trailer || filterOffset + filterLen > trailer {
      return None;
    }
    var index := ReadChecked(file, indexOffset, indexLen);
    if index.None? {
      return None;
    }
    var min := TakeField(index.value);
    if min.None? {
      return None;
    }
    var max := TakeField(min.value.1);
    if max.None? {
      return None;
    }
    var blocks := ParseBlocks(max.value.1);
    if blocks.None? {
      return None;
    }
    var stored := ReadChecked(file, filterOffset, filterLen);
    if stored.None? {
      return None;
    }
    var filter := Bloom.Decode(stored.value);
    if filter.None? {
      return None;
    }
    return Some(Table(file, blocks.value, filter.value, min.value.0, max.value.0, IntAt(footer, 24, 8)));
  }

  /** A lookup by range, filter, index and one block. */
  method Get(table: Table, key: Bytes) returns (found: Option<Lookup>)
    requires Bloom.WellFormed(table.filter)
    ensures Indexed(table.blocks) ==> found == Looked(table, key)
  {
    hide Bloom.MayContain, Bloom.HashOf, ReadChecked, ScanBlock, Less, Indexed;
    if Less(key, table.minKey) || Less(table.maxKey, key) {
      return Some(Missing);
    }
    var may := Bloom.TestHash(table.filter, Bloom.HashOf(key));
    if !may {
      return Some(Missing);
    }
    var candidate := PartitionPoint(table.blocks, key);
    if candidate == 0 {
      return Some(Missing);
    }
    var block := table.blocks[candidate - 1];
    var bytes := ReadChecked(table.file, block.offset, block.len);
    if bytes.None? {
      return None;
    }
    found := Search(bytes.value, key);
  }

  /** The index of a written file is in order, so its lookups may halve it. */
  lemma RefsIndexed(groups: seq<seq<Version>>)
    requires NoEmpty(groups) && Ascending(Flatten(groups))
    ensures Indexed(Refs(groups))
  {
    hide Refs, Flatten, Ascending, Less;
    RefsStart(groups);
    forall i, j | 0 <= i < j < |groups|
      ensures Less(Refs(groups)[i].firstKey, Refs(groups)[j].firstKey)
    {
      GroupsInOrder(groups, i, j, 0);
    }
  }

  // ---- Scans ----

  /**
   * What a scan will still deliver, and whether it ends well: the records left in the buffer, then block after block.
   */
  function ScanRest(table: Table, next: nat, cursor: Bytes): (seq<Version>, bool)
    decreases if next <= |table.blocks| then |table.blocks| - next else 0, |cursor|
  {
    if cursor != [] then
      match TakeRecord(cursor)
      case None => ([], false)
      case Some((v, rest)) =>
        var (more, ok) := ScanRest(table, next, rest);
        ([v] + more, ok)
    else if next >= |table.blocks| then ([], true)
    else
      match ReadChecked(table.file, table.blocks[next].offset, table.blocks[next].len)
      case None => ([], false)
      case Some(bytes) => ScanRest(table, next + 1, bytes)
  }

  class Scan {
    const table: Table
    var nextBlock: nat
    var buffer: Bytes
    var offset: nat
    var failed: bool

    ghost predicate Valid()
      reads this
    {
      offset <= |buffer|
    }

    ghost function Left(): (seq<Version>, bool)
      requires Valid()
      reads this
    {
      if failed then ([], false) else ScanRest(table, nextBlock, buffer[offset..])
    }

    constructor (table: Table)
      ensures Valid() && !failed && this.table == table && Left() == ScanRest(table, 0, [])
    {
      this.table := table;
      nextBlock, buffer, offset, failed := 0, [], 0, false;
    }

    /** The next entry; an error is delivered once and ends the scan. */
    method Next() returns (item: Option<Item>)
      requires Valid()
      modifies this
      ensures Valid()
      ensures item.None? ==> old(Left()).0 == [] && Left() == old(Left()) && (old(Left()).1 || old(failed))
      ensures item == Some(Unreadable) ==> old(Left()) == ([], false) == Left() && failed && !old(failed)
      ensures item.Some? && item.value.Good? ==> !failed && old(Left()) == ([item.value.v] + Left().0, Left().1)
    {
      hide TakeRecord, ReadChecked;
      if failed {
        return None;
      }
      while true
        invariant Valid() && !failed && !old(failed) && Left() == old(Left())
        decreases if nextBlock <= |table.blocks| then |table.blocks| - nextBlock else 0
      {
        if offset < |buffer| {
          var cursor := buffer[offset..];
          var taken := TakeRecord(cursor);
          if taken.None? {
            failed := true;
            return Some(Unreadable);
          }
          TakenIsTail(cursor);
          offset := |buffer| - |taken.value.1|;
          assert buffer[offset..] == taken.value.1;
          return Some(Good(taken.value.0));
        }
        assert buffer[offset..] == [];
        if nextBlock >= |table.blocks| {
          return None;
        }
        var block := table.blocks[nextBlock];
        nextBlock := nextBlock + 1;
        var bytes := ReadChecked(table.file, block.offset, block.len);
        if bytes.None? {
          failed := true;
          return Some(Unreadable);
        }
        buffer, offset := bytes.value, 0;
        assert buffer[0..] == buffer;
      }
    }
  }

  /** Taking a record leaves a tail of the cursor. */
  lemma TakenIsTail(cursor: Bytes)
    ensures var t := TakeRecord(cursor); t.Some? ==>
              |t.value.1| <= |cursor| && cursor[|cursor| - |t.value.1|..] == t.value.1
  {
    hide FromLe;
  }

  /** Every entry of a table in order; None if one cannot be read. */
  method ScanAll(table: Table) returns (entries: Option<seq<Version>>)
    ensures entries == if ScanRest(table, 0, []).1 then Some(ScanRest(table, 0, []).0) else None
  {
    hide ScanRest;
    var scan := new Scan(table);
    var found: seq<Version> := [];
    var more, ok := true, true;
    ghost var whole := ScanRest(table, 0, []);
    assert found + whole.0 == whole.0;
    while more
      invariant scan.Valid() && fresh(scan) && scan.table == table
      invariant whole == (found + scan.Left().0, scan.Left().1)
      invariant more ==> !scan.failed && ok
      invariant !more ==> scan.Left().0 == [] && ok == scan.Left().1
      decreases more, |whole.0| - |found|
    {
      var item := scan.Next();
      if item.None? {
        more := false;
      } else if item.value.Good? {
        assert found + ([item.value.v] + scan.Left().0) == (found + [item.value.v]) + scan.Left().0;
        found := found + [item.value.v];
      } else {
        ok, more := false, false;
      }
    }
    assert found + [] == found;
    return if ok then Some(found) else None;
  }

  lemma {:induction false} ScansRecords(table: Table, next: nat, entries: seq<Version>)
    requires AllFit(entries)
    ensures var rest := ScanRest(table, next, []);
            ScanRest(table, next, Records(entries)) == (entries + rest.0, rest.1)
    decreases |entries|
  {
    hide TakeRecord, Payload, ReadChecked, Fits;
    if entries == [] {
      assert [] + ScanRest(table, next, []).0 == ScanRest(table, next, []).0;
    } else {
      RecordsFront(entries);
      TakesRecord(entries[0], Records(entries[1..]));
      ScansRecords(table, next, entries[1..]);
      assert |Payload(entries[0])| > 0;
      assert [entries[0]] + (entries[1..] + ScanRest(table, next, []).0) == entries + ScanRest(table, next, []).0;
    }
  }

  /** The entries from group `i` on. */
  ghost function From(groups: seq<seq<Version>>, i: nat): seq<Version>
    decreases |groups| - i
  {
    if i >= |groups| then [] else groups[i] + From(groups, i + 1)
  }

  lemma {:induction false} FromIsRest(groups: seq<seq<Version>>, i: nat)
    requires i <= |groups|
    ensures Flatten(groups[..i]) + From(groups, i) == Flatten(groups)
    decreases |groups| - i
  {
    if i == |groups| {
      assert groups[..i] == groups && Flatten(groups) + [] == Flatten(groups);
    } else {
      FromIsRest(groups, i + 1);
      assert groups[..i + 1][..i] == groups[..i] && groups[..i + 1][i] == groups[i];
      assert (Flatten(groups[..i]) + groups[i]) + From(groups, i + 1)
             == Flatten(groups[..i]) + (groups[i] + From(groups, i + 1));
    }
  }

  lemma {:induction false} ScansGroups(groups: seq<seq<Version>>, table: Table, filter: seq<bv8>, i: nat)
    requires NoEmpty(groups) && Ascending(Flatten(groups)) && AllFit(Flatten(groups)) && i <= |groups|
    requires table.file == Image(groups, filter) && table.blocks == Refs(groups)
    ensures ScanRest(table, i, []) == (From(groups, i), true)
    decreases |groups| - i
  {
    hide *;
    FromStep(groups, table, i);
    if i < |groups| {
      CandidateBlock(groups, filter, i);
      GroupAscends(groups, i);
      ScansRecords(table, i + 1, groups[i]);
      ScansGroups(groups, table, filter, i + 1);
      ScanReads(table, i, Records(groups[i]));
    }
  }

  lemma FromStep(groups: seq<seq<Version>>, table: Table, i: nat)
    requires |table.blocks| == |groups| && i <= |groups|
    ensures i < |groups| ==> From(groups, i) == groups[i] + From(groups, i + 1)
    ensures i == |groups| ==> From(groups, i) == [] && ScanRest(table, i, []) == ([], true)
  {
  }

  lemma ScanReads(table: Table, i: nat, bytes: Bytes)
    requires i < |table.blocks| && ReadChecked(table.file, table.blocks[i].offset, table.blocks[i].len) == Some(bytes)
    ensures ScanRest(table, i, []) == ScanRest(table, i + 1, bytes)
  {
    hide ReadChecked, TakeRecord;
  }

  /** A scan of the opened file yields exactly the list it was written from. */
  lemma ScanYieldsList(groups: seq<seq<Version>>, filter: seq<bv8>)
    requires NoEmpty(groups) && Storable(groups, filter) && Ascending(Flatten(groups)) && Bloom.WellFormed(filter)
    ensures var table := Opened(Image(groups, filter));
            table.Some? && ScanRest(table.value, 0, []) == (Flatten(groups), true)
  {
    hide *;
    OpensImage(groups, filter);
    StorableParts(groups, filter);
    IsAllFit(Flatten(groups));
    var table := Opened(Image(groups, filter)).value;
    ScansGroups(groups, table, filter, 0);
    FromIsRest(groups, 0);
    NothingBefore(groups);
  }

  lemma NothingBefore(groups: seq<seq<Version>>)
    ensures Flatten(groups[..0]) == [] && [] + From(groups, 0) == From(groups, 0)
  {
  }

  // ---- A list through a file and back ----

  /** What a file written from `entries` promises: it opens, every lookup answers as the list, a scan gives it back. */
  ghost predicate Serves(file: Bytes, entries: seq<Version>) {
    var table := Opened(file);
    && table.Some? && Bloom.WellFormed(table.value.filter) && Indexed(table.value.blocks)
    && (forall key :: Looked(table.value, key) == Some(Listed(entries, key)))
    && ScanRest(table.value, 0, []) == (entries, true)
  }

  lemma ImageServes(groups: seq<seq<Version>>, filter: seq<bv8>)
    requires NoEmpty(groups) && Storable(groups, filter) && Ascending(Flatten(groups))
             && Covers(filter, Flatten(groups))
    ensures Serves(Image(groups, filter), Flatten(groups))
  {
    hide Image, Flatten, Looked, Listed, Opened, ScanRest, Storable, Ascending, Refs;
    OpensImage(groups, filter);
    RefsIndexed(groups);
    ScanYieldsList(groups, filter);
    forall key
      ensures Looked(Opened(Image(groups, filter)).value, key) == Some(Listed(Flatten(groups), key))
    {
      LookupRefinesList(groups, filter, key);
    }
  }

  /** Writes a sorted list out: a file comes out exactly if every length fits its field, and it serves the list. */
  method WriteList(entries: seq<Version>) returns (file: Option<Bytes>)
    requires Ascending(entries) && forall v | v in entries :: v.seqno <= U64_MAX
    ensures file.Some? <==> Writable(entries)
    ensures file.Some? ==> Serves(file.value, entries) && |file.value| == FileSize(entries)
  {
    hide *;
    var writer := new Writer();
    for i := 0 to |entries|
      invariant writer.Adding() && fresh(writer) && writer.All() == entries[..i]
    {
      LastAdded(writer, entries, i);
      AddStops(entries, i);
      var ok := writer.Add(entries[i]);
      if !ok {
        return None;
      }
      assert entries[..i] + [entries[i]] == entries[..i + 1];
    }
    assert entries[..|entries|] == entries;
    var ok, filter := writer.Finish();
    if !ok {
      return None;
    }
    ImageServes(writer.groups, filter);
    ImageSize(entries, filter);
    return Some(writer.file);
  }

  lemma LastAdded(writer: Writer, entries: seq<Version>, i: nat)
    requires writer.Adding() && i < |entries| && Ascending(entries) && writer.All() == entries[..i]
    ensures writer.All() == [] || Less(writer.maxKey, entries[i].key)
  {
    hide Less, Flatten;
    assert i > 0 ==> Less(entries[i - 1].key, entries[i].key);
  }

  /** An entry that cannot be added is one that keeps the whole list from being written. */
  lemma AddStops(entries: seq<Version>, i: nat)
    requires i < |entries|
    ensures !Fits(entries[i]) || !Closable(Packed(entries[..i]).open + [entries[i]]) ==> !Writable(entries)
  {
    hide Fits, Packed, Records, BlocksFit, FilterFits, IndexFits, BlocksOf;
    LongBlockStops(entries, i);
  }
}
