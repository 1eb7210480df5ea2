/** Writing a sorted file entry by entry, and reading it through its index, its filter and its scans. */
module SortedFileTable {
  import opened Bounds
  import opened Keys
  import opened Versions
  import opened Coding
  import opened WalRecord
  import opened Merge
  import opened SortedFile
  import opened SortedFileReads
  import opened SortedFileBlocks
  import Bloom

  // ---- Writing ----

  function HashesOf(entries: seq<Version>): (r: seq<nat>)
    ensures |r| == |entries|
  {
    seq(|entries|, i requires 0 <= i < |entries| => Bloom.HashOf(entries[i].key))
  }

  /** What a writer holds for the entries added so far: whole blocks in the file, the rest in the open block. */
  ghost predicate Holds(groups: seq<seq<Version>>, current: seq<Version>, file: Bytes, block: Bytes,
                        blocks: seq<BlockRef>, firstKey: Bytes) {
    && NoEmpty(groups) && file == Body(groups) && blocks == Refs(groups) && block == Records(current)
    && (current != [] ==> firstKey == current[0].key)
    && (forall i | 0 <= i < |groups| :: |Block(groups[i])| <= U32_MAX)
  }

  ghost predicate Knows(entries: seq<Version>, hashes: seq<nat>, minKey: Bytes, maxKey: Bytes, count: nat) {
    && Ascending(entries) && AllFit(entries) && count == |entries| && hashes == HashesOf(entries)
    && minKey == MinKey(entries) && maxKey == MaxKey(entries)
  }

  lemma Starts()
    ensures Holds([], [], [], [], [], []) && Knows([], [], [], [], 0) && Flatten([]) + [] == []
  {
  }

  /** One more record at the end of the open block. */
  lemma AddsRecord(groups: seq<seq<Version>>, current: seq<Version>, file: Bytes, block: Bytes, blocks: seq<BlockRef>,
                   firstKey: Bytes, v: Version)
    requires Holds(groups, current, file, block, blocks, firstKey)
    ensures Holds(groups, current + [v], file, block + Payload(v), blocks, if block == [] then v.key else firstKey)
  {
    hide Payload, Body, Refs, Block;
    assert (current + [v])[..|current|] == current;
    NoRecords(current);
  }

  lemma NoRecords(entries: seq<Version>)
    ensures Records(entries) == [] <==> entries == []
  {
  }

  lemma KnowsMore(entries: seq<Version>, hashes: seq<nat>, minKey: Bytes, maxKey: Bytes, count: nat, v: Version)
    requires Knows(entries, hashes, minKey, maxKey, count) && Fits(v) && (entries == [] || Less(maxKey, v.key))
    ensures Knows(entries + [v], hashes + [Bloom.HashOf(v.key)], if count == 0 then v.key else minKey, v.key, count + 1)
  {
    hide Bloom.HashOf, Fits;
    KeyOrder();
    var more := entries + [v];
    forall i, j | 0 <= i < j < |more|
      ensures Less(more[i].key, more[j].key)
    {
      assert j == |entries| && i < |entries| - 1 ==> Less(entries[i].key, entries[|entries| - 1].key);
    }
  }

  /** The open block, closed by its checksum, joins the file. */
  lemma ClosesBlock(groups: seq<seq<Version>>, current: seq<Version>, file: Bytes, block: Bytes, blocks: seq<BlockRef>,
                    firstKey: Bytes)
    requires Holds(groups, current, file, block, blocks, firstKey) && current != [] && |Checked(block)| <= U32_MAX
    ensures Holds(groups + [current], [], file + Checked(block), [],
                  blocks + [BlockRef(firstKey, |file|, |Checked(block)|)], [])
    ensures Flatten(groups + [current]) == Flatten(groups) + current
  {
    NoRecords([]);
    hide Records, Checked;
    assert (groups + [current])[..|groups|] == groups;
  }

  /** A block that has reached the block size can be closed. */
  predicate Closable(open: seq<Version>) {
    |Records(open)| >= BLOCK_SIZE ==> |Records(open)| + CRC_LEN <= U32_MAX
  }

  lemma RecordsStep(groups: seq<seq<Version>>, current: seq<Version>, file: Bytes, block: Bytes, blocks: seq<BlockRef>,
                    firstKey: Bytes, v: Version)
    requires Holds(groups, current, file, block, blocks, firstKey)
    ensures Records(current + [v]) == block + Payload(v)
  {
    hide Payload, Body, Refs, Block;
    assert (current + [v])[..|current|] == current;
  }

  class Writer {
    var file: Bytes
    var block: Bytes
    var blocks: seq<BlockRef>
    var hashes: seq<nat>
    var firstKey: Bytes
    var minKey: Bytes
    var maxKey: Bytes
    var offset: nat
    var entries: nat
    ghost var groups: seq<seq<Version>>
    ghost var current: seq<Version>

    ghost predicate Valid()
      reads this
    {
      && Holds(groups, current, file, block, blocks, firstKey) && offset == |file|
      && Knows(All(), hashes, minKey, maxKey, entries)
    }

    ghost function All(): seq<Version>
      reads this
    {
      Flatten(groups) + current
    }

    /** Blocks closed where the block size says, and nowhere else. */
    ghost predicate Adding()
      reads this
    {
      Valid() && Packed(All()) == Progress(groups, current)
    }

    constructor ()
      ensures Adding() && All() == []
    {
      file, block, blocks, hashes := [], [], [], [];
      firstKey, minKey, maxKey := [], [], [];
      offset, entries := 0, 0;
      groups, current := [], [];
      new;
      Starts();
    }

    /** The bytes written so far, which is what a compaction cuts its output on. */
    method BytesWritten() returns (bytes: nat)
      requires Adding()
      ensures bytes == WrittenSize(All())
    {
      hide Knows, Body, Flatten, Packed;
      bytes := offset;
    }

    /** Appends one entry; false if one of its lengths, or its block's, does not fit. */
    method Add(v: Version) returns (ok: bool)
      requires Adding() && v.seqno <= U64_MAX && (All() == [] || Less(maxKey, v.key))
      modifies this
      ensures ok ==> Adding() && All() == old(All()) + [v]
      ensures ok <==> Fits(v) && Closable(Packed(old(All())).open + [v])
    {
      hide Holds, Knows, Less, Le, Flatten, Bloom.HashOf, Packed, Payload, Records;
      PackedStep(All(), v);
      RecordsStep(groups, current, file, block, blocks, firstKey, v);
      AddsRecord(groups, current, file, block, blocks, firstKey, v);
      if Fits(v) {
        KnowsMore(All(), hashes, minKey, maxKey, entries, v);
      }
      assert Flatten(groups) + current + [v] == Flatten(groups) + (current + [v]);
      if block == [] {
        firstKey := v.key;
      }
      if entries == 0 {
        minKey := v.key;
      }
      maxKey := v.key;
      hashes := hashes + [Bloom.HashOf(v.key)];
      entries := entries + 1;
      ok := PushRecord(v);
      if !ok {
        return;
      }
      current := current + [v];
      if |block| >= BLOCK_SIZE {
        ok := CloseBlock();
      }
    }

    method PushRecord(v: Version) returns (ok: bool)
      requires v.seqno <= U64_MAX
      modifies this`block
      ensures ok <==> Fits(v)
      ensures ok ==> block == old(block) + Payload(v)
    {
      hide Le;
      ghost var before := block;
      block := block + Le(v.seqno, 8);
      block := block + [if v.value.Some? then KIND_SET else KIND_DELETE];
      if |v.key| > U32_MAX {
        return false;
      }
      block := block + Field(v.key);
      if v.value.Some? {
        if |v.value.value| > U32_MAX {
          return false;
        }
        block := block + Field(v.value.value);
      }
      assert block == before + Payload(v);
      return true;
    }

    method CloseBlock() returns (ok: bool)
      requires Valid()
      modifies this
      ensures ok <==> |old(block)| == 0 || |old(block)| + CRC_LEN <= U32_MAX
      ensures ok ==> Valid() && current == [] && block == [] && All() == old(All())
      ensures ok ==> groups == Sealed(Progress(old(groups), old(current)))
      ensures unchanged(this`hashes) && unchanged(this`minKey) && unchanged(this`maxKey) && unchanged(this`entries)
    {
      hide Holds, Knows, Le, Flatten, Checked, Crc;
      HoldsBlock(groups, current, file, block, blocks, firstKey);
      assert All() == Flatten(groups) + current;
      if block == [] {
        return true;
      }
      var crc := CrcOf(block);
      var closed := block + Le(crc, 4);
      if |closed| > U32_MAX {
        return false;
      }
      CheckedIs(block);
      ClosesBlock(groups, current, file, block, blocks, firstKey);
      file := file + closed;
      blocks := blocks + [BlockRef(firstKey, offset, |closed|)];
      offset := offset + |closed|;
      block, firstKey := [], [];
      groups, current := groups + [current], [];
      assert Flatten(groups) + [] == Flatten(groups);
      return true;
    }

    /** Appends bytes closed by their checksum; false if their length does not fit. */
    method WriteChecked(bytes: Bytes) returns (ok: bool, len: nat)
      modifies this`file, this`offset
      ensures ok <==> |Checked(bytes)| <= U32_MAX
      ensures ok ==> len == |Checked(bytes)| && file == old(file) + Checked(bytes) && offset == old(offset) + len
    {
      hide Le;
      var crc := CrcOf(bytes);
      var closed := bytes + Le(crc, 4);
      CheckedIs(bytes);
      if |closed| > U32_MAX {
        return false, 0;
      }
      file := file + closed;
      offset := offset + |closed|;
      return true, |closed|;
    }

    method WriteFooter(indexOffset: nat, indexLen: nat, filterOffset: nat, filterLen: nat)
      modifies this`file, this`offset
      ensures file == old(file) + Footer(FooterHead(indexOffset, indexLen, filterOffset, filterLen, entries))
    {
      hide Le, FooterHead;
      var head := FooterHead(indexOffset, indexLen, filterOffset, filterLen, entries);
      var crc := CrcOf(head);
      var footer := head + (Le(crc, 4) + (Le(FORMAT_VERSION, 4) + Magic()));
      file := file + footer;
      offset := offset + |footer|;
    }

    /** Writes filter, index and footer; false if one of their lengths does not fit. */
    method Finish() returns (ok: bool, ghost filter: seq<bv8>)
      requires Adding()
      modifies this
      ensures ok <==> Writable(old(All()))
      ensures ok ==> groups == BlocksOf(old(All()))
      ensures ok ==> |filter| == Bloom.ArrayBytes(|old(All())|, Bloom.BITS_PER_KEY) + 1
      ensures ok ==> NoEmpty(groups) && Flatten(groups) == old(All()) && file == Image(groups, filter)
      ensures ok ==> Covers(filter, old(All())) && Ascending(old(All())) && Storable(groups, filter)
    {
      hide *;
      Added(this);
      ghost var all := All();
      LongLastBlockStops(all);
      WritableParts(all);
      ok := CloseBlock();
      if !ok {
        return false, [];
      }
      Closed(this);
      assert groups == BlocksOf(all) by { SealedBlocks(all); }
      var bloom := Bloom.Build(hashes, Bloom.BITS_PER_KEY);
      filter := bloom;
      CoversAll(bloom, Flatten(groups), hashes, minKey, maxKey, entries);
      ghost var body := file;
      var filterOffset := offset;
      var filterLen, indexLen;
      FilterLength(bloom, entries);
      IndexParts(groups, file, blocks, minKey, maxKey, hashes, entries, firstKey);
      IndexKeysFit(groups);
      ok, filterLen := WriteChecked(Bloom.AsBytes(bloom));
      if !ok {
        return false, [];
      }
      var indexOffset := offset;
      var index, fits := BuildIndex();
      if !fits {
        return false, [];
      }
      ok, indexLen := WriteChecked(index);
      if !ok {
        return false, [];
      }
      WriteFooter(indexOffset, indexLen, filterOffset, filterLen);
      Completes(groups, bloom, body, file, Bloom.AsBytes(bloom), index, blocks, minKey, maxKey, hashes, entries,
                firstKey);
      AllWritable(groups, bloom, body, blocks, minKey, maxKey, hashes, entries, firstKey);
      return true, filter;
    }

    /** The first key, place and length of every block, behind the range of the file. */
    method BuildIndex() returns (index: Bytes, ok: bool)
      ensures ok <==>
                && |minKey| <= U32_MAX && |maxKey| <= U32_MAX
                && forall i | 0 <= i < |blocks| :: |blocks[i].firstKey| <= U32_MAX
      ensures ok ==> index == IndexBody(minKey, maxKey, blocks)
    {
      hide Le;
      if |minKey| > U32_MAX || |maxKey| > U32_MAX {
        return [], false;
      }
      index := Field(minKey) + Field(maxKey);
      for i := 0 to |blocks|
        invariant index + AllRefBytes(blocks[i..]) == IndexBody(minKey, maxKey, blocks)
        invariant forall j | 0 <= j < i :: |blocks[j].firstKey| <= U32_MAX
      {
        if |blocks[i].firstKey| > U32_MAX {
          return [], false;
        }
        Associates(index, RefBytes(blocks[i]), AllRefBytes(blocks[i + 1..]));
        assert blocks[i..][1..] == blocks[i + 1..];
        index := index + Field(blocks[i].firstKey) + Le(blocks[i].offset, 8) + Le(blocks[i].len, 4);
      }
      assert blocks[|blocks|..] == [] && index + [] == index;
      ok := true;
    }
  }

  lemma Added(w: Writer)
    requires w.Adding()
    ensures w.Valid() && Packed(w.All()) == Progress(w.groups, w.current) && w.block == Records(w.current)
    ensures w.block == [] <==> w.current == []
  {
    hide Packed, Knows;
    NoRecords(w.current);
  }

  lemma SealedBlocks(entries: seq<Version>)
    ensures BlocksOf(entries) == Sealed(Packed(entries))
  {
  }

  /** What being writable says of the parts, in the order they are written. */
  lemma WritableParts(entries: seq<Version>)
    ensures NoEmpty(BlocksOf(entries)) && Flatten(BlocksOf(entries)) == entries
    ensures Writable(entries) ==> AllFit(entries) && BlocksFit(BlocksOf(entries)) && FilterFits(|entries|)
    ensures Writable(entries) ==> IndexFits(entries, BlocksOf(entries))
  {
    hide BlocksFit, AllFit, FilterFits, IndexFits, BlocksOf, Flatten;
    BlocksHoldAll(entries);
  }

  lemma Closed(w: Writer)
    requires w.Valid() && w.current == [] && w.block == []
    ensures Holds(w.groups, [], w.file, [], w.blocks, w.firstKey) && w.offset == |w.file|
    ensures Knows(Flatten(w.groups), w.hashes, w.minKey, w.maxKey, w.entries) && w.All() == Flatten(w.groups)
    ensures w.entries == |w.All()| == |w.hashes|
  {
    hide Holds, Flatten;
    assert Flatten(w.groups) + [] == Flatten(w.groups);
  }

  lemma FilterLength(filter: seq<bv8>, count: nat)
    requires |filter| == Bloom.ArrayBytes(count, Bloom.BITS_PER_KEY) + 1
    ensures |Checked(Bloom.AsBytes(filter))| <= U32_MAX <==> FilterFits(count)
  {
    hide Bloom.ArrayBytes, Le;
  }

  lemma IndexParts(groups: seq<seq<Version>>, body: Bytes, blocks: seq<BlockRef>, minKey: Bytes, maxKey: Bytes,
                   hashes: seq<nat>, entries: nat, firstKey: Bytes)
    requires Holds(groups, [], body, [], blocks, firstKey) && Knows(Flatten(groups), hashes, minKey, maxKey, entries)
    ensures NoEmpty(groups) && blocks == Refs(groups)
    ensures minKey == MinKey(Flatten(groups)) && maxKey == MaxKey(Flatten(groups))
    ensures |Checked(IndexBody(minKey, maxKey, blocks))| <= U32_MAX <==> IndexFits(Flatten(groups), groups)
  {
    hide Body, Refs, Flatten, IndexBody, Le, MinKey, MaxKey, AllFit;
  }

  /** Keys that fit a record fit the index. */
  lemma IndexKeysFit(groups: seq<seq<Version>>)
    requires NoEmpty(groups)
    ensures AllFit(Flatten(groups)) ==> |MinKey(Flatten(groups))| <= U32_MAX && |MaxKey(Flatten(groups))| <= U32_MAX
    ensures AllFit(Flatten(groups)) ==> forall i | 0 <= i < |groups| :: |Refs(groups)[i].firstKey| <= U32_MAX
  {
    hide Flatten, Refs;
    if AllFit(Flatten(groups)) {
      forall i | 0 <= i < |groups|
        ensures |Refs(groups)[i].firstKey| <= U32_MAX
      {
        RefAt(groups, i);
        GroupKeyFits(groups, i);
      }
    }
  }

  /** A file whose every length was accepted is one the list allows, and all its offsets fit. */
  lemma AllWritable(groups: seq<seq<Version>>, filter: seq<bv8>, body: Bytes, blocks: seq<BlockRef>, minKey: Bytes,
                    maxKey: Bytes,
                    hashes: seq<nat>, entries: nat, firstKey: Bytes)
    requires Holds(groups, [], body, [], blocks, firstKey) && Knows(Flatten(groups), hashes, minKey, maxKey, entries)
    requires NoEmpty(groups) && groups == BlocksOf(Flatten(groups)) && FilterFits(entries)
             && IndexFits(Flatten(groups), groups)
    requires |filter| == Bloom.ArrayBytes(entries, Bloom.BITS_PER_KEY) + 1
    ensures Writable(Flatten(groups)) && |Image(groups, filter)| <= U64_MAX && entries <= U64_MAX
  {
    hide Body, Refs, Flatten, IndexBody, FilterFits, IndexFits, AllFit, BlocksOf, Image, Bloom.ArrayBytes;
    assert BlocksFit(groups);
    OffsetsFit(groups, filter);
  }

  lemma CheckedIs(b: Bytes)
    ensures Checked(b) == b + Le(Crc(b), 4)
  {
  }

  lemma HoldsBlock(groups: seq<seq<Version>>, current: seq<Version>, file: Bytes, block: Bytes, blocks: seq<BlockRef>,
                   firstKey: Bytes)
    requires Holds(groups, current, file, block, blocks, firstKey)
    ensures block == [] <==> current == []
  {
    NoRecords(current);
  }

  lemma CoversAll(filter: seq<bv8>, entries: seq<Version>, hashes: seq<nat>, minKey: Bytes, maxKey: Bytes, count: nat)
    requires Knows(entries, hashes, minKey, maxKey, count) && Bloom.WellFormed(filter)
             && forall h | h in hashes :: Bloom.MayContain(filter, h)
    ensures Covers(filter, entries) && Ascending(entries)
  {
    hide Bloom.MayContain, Bloom.HashOf;
    forall i | 0 <= i < |entries|
      ensures Bloom.MayContain(filter, Bloom.HashOf(entries[i].key))
    {
      assert hashes[i] in hashes;
    }
  }

  /** The sections written one after the other are the file's image. */
  lemma Completes(groups: seq<seq<Version>>, filter: seq<bv8>, body: Bytes, file: Bytes, stored: Bytes, index: Bytes,
                  blocks: seq<BlockRef>, minKey: Bytes, maxKey: Bytes, hashes: seq<nat>, entries: nat, firstKey: Bytes)
    requires Holds(groups, [], body, [], blocks, firstKey) && Knows(Flatten(groups), hashes, minKey, maxKey, entries)
    requires stored == Bloom.AsBytes(filter) && index == IndexBody(minKey, maxKey, blocks)
    requires |Checked(stored)| <= U32_MAX && |Checked(index)| <= U32_MAX
    requires file == body + Checked(stored) + Checked(index)
                     + Footer(FooterHead(|body| + |Checked(stored)|, |Checked(index)|, |body|, |Checked(stored)|,
                                         entries))
    ensures NoEmpty(groups) && file == Image(groups, filter)
    ensures |file| <= U64_MAX && entries <= U64_MAX ==> Storable(groups, filter)
  {
    hide FooterHead, IndexBody, Body, Refs, Flatten, Bloom.AsBytes, Block, Checked, Footer, Image, MinKey, MaxKey;
    var bloom, table := Checked(stored), Checked(index);
    var footer := Footer(FooterHead(|body| + |bloom|, |table|, |body|, |bloom|, entries));
    Sections(body, bloom, table, footer);
    ImageParts(groups, filter);
  }

  lemma Sections(body: Bytes, bloom: Bytes, table: Bytes, footer: Bytes)
    ensures body + bloom + table + footer == body + (bloom + (table + footer))
  {
  }
}
