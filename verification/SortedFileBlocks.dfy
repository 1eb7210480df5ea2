/** How a writer cuts a list into blocks, and exactly which lists it can write. */
module SortedFileBlocks {
  import opened Bounds
  import opened Versions
  import opened Coding
  import opened WalRecord
  import opened SortedFile
  import opened SortedFileReads
  import Bloom

  /** The blocks closed so far and the entries of the open one. */
  datatype Progress = Progress(closed: seq<seq<Version>>, open: seq<Version>)

  /** A block closes as soon as its records reach the block size. */
  function Packed(entries: seq<Version>): Progress {
    if entries == [] then Progress([], [])
    else
      var before := Packed(entries[..|entries| - 1]);
      var open := before.open + [entries[|entries| - 1]];
      if |Records(open)| >= BLOCK_SIZE then Progress(before.closed + [open], []) else Progress(before.closed, open)
  }

  function Sealed(p: Progress): seq<seq<Version>> {
    if p.open == [] then p.closed else p.closed + [p.open]
  }

  /** The blocks of the finished file. */
  function BlocksOf(entries: seq<Version>): seq<seq<Version>> {
    Sealed(Packed(entries))
  }

  lemma PackedStep(entries: seq<Version>, v: Version)
    ensures var before := Packed(entries);
            var open := before.open + [v];
            Packed(entries + [v]) == if |Records(open)| >= BLOCK_SIZE then Progress(before.closed + [open], [])
                else Progress(before.closed, open)
  {
    hide Records;
    assert (entries + [v])[..|entries|] == entries;
  }

  lemma {:induction false} PackedHoldsAll(entries: seq<Version>)
    ensures NoEmpty(Packed(entries).closed) && Flatten(Packed(entries).closed) + Packed(entries).open == entries
  {
    if entries == [] {
      hide Records;
    } else {
      hide Records, Flatten;
      var front, last := entries[..|entries| - 1], entries[|entries| - 1];
      assert entries == front + [last];
      PackedHoldsAll(front);
      HoldsOneMore(Packed(front), front, last);
    }
  }

  lemma HoldsOneMore(before: Progress, front: seq<Version>, last: Version)
    requires NoEmpty(before.closed) && Flatten(before.closed) + before.open == front
    ensures var open := before.open + [last];
            && Flatten(before.closed) + open == front + [last]
            && NoEmpty(before.closed + [open]) && Flatten(before.closed + [open]) + [] == front + [last]
  {
    hide Flatten;
    var open := before.open + [last];
    FlattenMore(before.closed, open);
    assert Flatten(before.closed) + open == (Flatten(before.closed) + before.open) + [last];
    NothingMore(Flatten(before.closed + [open]));
  }

  lemma NothingMore(entries: seq<Version>)
    ensures entries + [] == entries
  {
  }

  lemma FlattenMore(groups: seq<seq<Version>>, group: seq<Version>)
    ensures Flatten(groups + [group]) == Flatten(groups) + group
  {
    assert (groups + [group])[..|groups|] == groups;
  }

  /** The blocks of a file hold its entries, in order, and none is empty. */
  lemma BlocksHoldAll(entries: seq<Version>)
    ensures NoEmpty(BlocksOf(entries)) && Flatten(BlocksOf(entries)) == entries
  {
    hide Packed, Flatten;
    PackedHoldsAll(entries);
    var p := Packed(entries);
    FlattenMore(p.closed, p.open);
    assert p.open == [] ==> Flatten(p.closed) + p.open == Flatten(p.closed);
  }

  /** A closed block stays where it is while more entries come. */
  lemma {:induction false} ClosedStay(entries: seq<Version>, i: nat)
    requires i <= |entries|
    ensures Packed(entries[..i]).closed <= Packed(entries).closed
  {
    hide Records;
    if i == |entries| {
      assert entries[..i] == entries;
    } else {
      var front := entries[..|entries| - 1];
      ClosedStay(front, i);
      assert front[..i] == entries[..i];
    }
  }

  // ---- How big files get ----

  /** The bytes a writer has put into the file once these entries are in: the blocks closed so far. */
  function WrittenSize(entries: seq<Version>): nat {
    |Body(Packed(entries).closed)|
  }

  /** The size of the finished file. */
  function FileSize(entries: seq<Version>): nat {
    BlocksHoldAll(entries);
    var groups := BlocksOf(entries);
    |Body(groups)| + Bloom.ArrayBytes(|entries|, Bloom.BITS_PER_KEY) + 1
    + |IndexBody(MinKey(entries), MaxKey(entries), Refs(groups))| + 2 * CRC_LEN + FOOTER_LEN
  }

  lemma ImageSize(entries: seq<Version>, filter: seq<bv8>)
    requires |filter| == Bloom.ArrayBytes(|entries|, Bloom.BITS_PER_KEY) + 1
    ensures NoEmpty(BlocksOf(entries)) && |Image(BlocksOf(entries), filter)| == FileSize(entries)
  {
    hide Body, Flatten, Refs, MinKey, MaxKey, IndexBody, FooterHead, Footer, Bloom.AsBytes, Bloom.ArrayBytes, Crc, Le,
         BlocksOf, Image;
    BlocksHoldAll(entries);
    ImageParts(BlocksOf(entries), filter);
  }

  // ---- Which lists can be written ----

  predicate BlocksFit(groups: seq<seq<Version>>) {
    forall i | 0 <= i < |groups| :: |Block(groups[i])| <= U32_MAX
  }

  predicate FilterFits(count: nat) {
    Bloom.ArrayBytes(count, Bloom.BITS_PER_KEY) + 1 + CRC_LEN <= U32_MAX
  }

  predicate IndexFits(entries: seq<Version>, groups: seq<seq<Version>>)
    requires NoEmpty(groups)
  {
    |IndexBody(MinKey(entries), MaxKey(entries), Refs(groups))| + CRC_LEN <= U32_MAX
  }

  /** Every length field of the file holds its length. */
  ghost predicate Writable(entries: seq<Version>) {
    BlocksHoldAll(entries);
    var groups := BlocksOf(entries);
    AllFit(entries) && BlocksFit(groups) && FilterFits(|entries|) && IndexFits(entries, groups)
  }

  /** A block too long to close keeps every longer list from being written. */
  lemma LongBlockStops(entries: seq<Version>, i: nat)
    requires i < |entries|
    ensures var open := Packed(entries[..i]).open + [entries[i]];
            |Records(open)| >= BLOCK_SIZE && |Records(open)| + CRC_LEN > U32_MAX ==> !Writable(entries)
  {
    hide Records, AllFit, FilterFits, IndexFits, Packed;
    PackedStep(entries[..i], entries[i]);
    assert entries[..i] + [entries[i]] == entries[..i + 1];
    ClosedStay(entries, i + 1);
    var open := Packed(entries[..i]).open + [entries[i]];
    if |Records(open)| >= BLOCK_SIZE && |Records(open)| + CRC_LEN > U32_MAX {
      var at := |Packed(entries[..i]).closed|;
      assert Packed(entries[..i + 1]).closed[at] == open;
      assert BlocksOf(entries)[at] == open;
    }
  }

  lemma LongLastBlockStops(entries: seq<Version>)
    ensures var open := Packed(entries).open;
            open != [] && |Records(open)| + CRC_LEN > U32_MAX ==> !Writable(entries)
  {
    hide Records, AllFit, FilterFits, IndexFits, Packed;
    var p := Packed(entries);
    assert p.open != [] ==> BlocksOf(entries)[|p.closed|] == p.open;
  }

  // ---- A file that can be written fits 64 bits ----

  lemma {:induction false} BodyFits(groups: seq<seq<Version>>)
    requires BlocksFit(groups)
    ensures |Body(groups)| <= |groups| * U32_MAX
  {
    hide Block;
    if groups != [] {
      BodyFits(groups[..|groups| - 1]);
      assert |Block(groups[|groups| - 1])| <= U32_MAX;
    }
  }

  lemma {:induction false} RefsTakeSpace(refs: seq<BlockRef>)
    ensures |AllRefBytes(refs)| >= 16 * |refs|
  {
    hide Le;
    if refs != [] {
      RefsTakeSpace(refs[1..]);
    }
  }

  lemma FilterCounts(n: nat)
    requires FilterFits(n)
    ensures n <= U32_MAX
  {
  }

  lemma Product(n: nat, body: nat)
    requires 16 * n <= U32_MAX && body <= n * U32_MAX
    ensures body <= U32_MAX * U32_MAX / 16
  {
  }

  /** The lengths that are checked keep every offset and count within 64 bits. */
  lemma OffsetsFit(groups: seq<seq<Version>>, filter: seq<bv8>)
    requires NoEmpty(groups) && BlocksFit(groups) && FilterFits(|Flatten(groups)|) && IndexFits(Flatten(groups), groups)
    requires |filter| == Bloom.ArrayBytes(|Flatten(groups)|, Bloom.BITS_PER_KEY) + 1
    ensures |Flatten(groups)| <= U64_MAX && |Image(groups, filter)| <= U64_MAX
  {
    hide Body, Flatten, Refs, MinKey, MaxKey, FooterHead, Footer, Bloom.AsBytes, Bloom.ArrayBytes, AllRefBytes, Le,
        BlocksFit, Image;
    BodyFits(groups);
    RefsTakeSpace(Refs(groups));
    FilterCounts(|Flatten(groups)|);
    Product(|groups|, |Body(groups)|);
    ImageParts(groups, filter);
  }
}
