/** A sorted file is never bigger than a fixed multiple of its entries, which is what lets the compaction loop end. */
module SortedFileSize {
  import opened Bounds
  import opened Keys
  import opened Versions
  import opened Coding
  import opened WalRecord
  import opened Merge
  import opened SortedFile
  import opened SortedFileReads
  import opened SortedFileBlocks
  import opened Files
  import opened Planner
  import opened Cutting
  import opened Compactor
  import opened Sums
  import Bloom

  /** The bytes of all records. */
  ghost function Bulk(entries: seq<Version>): nat {
    if entries == [] then 0 else Bulk(entries[..|entries| - 1]) + |Payload(entries[|entries| - 1])|
  }

  lemma BulkStep(entries: seq<Version>)
    requires entries != []
    ensures Bulk(entries) == Bulk(entries[..|entries| - 1]) + |Payload(entries[|entries| - 1])|
  {
    hide Payload;
  }

  lemma {:induction false} BulkSplits(a: seq<Version>, b: seq<Version>)
    ensures Bulk(a + b) == Bulk(a) + Bulk(b)
    decreases |b|
  {
    if b == [] {
      hide Payload;
      assert a + b == a;
    } else {
      hide Payload, Bulk;
      BulkSplits(a, b[..|b| - 1]);
      assert (a + b)[..|a + b| - 1] == a + b[..|b| - 1] && (a + b)[|a + b| - 1] == b[|b| - 1];
      BulkStep(a + b);
      BulkStep(b);
    }
  }

  lemma {:induction false} RecordsBulk(entries: seq<Version>)
    ensures |Records(entries)| == Bulk(entries)
  {
    hide Payload;
    if entries != [] {
      RecordsBulk(entries[..|entries| - 1]);
    }
  }

  lemma KeyInPayload(v: Version)
    ensures |Payload(v)| >= 13 + |v.key|
  {
    hide Le;
  }

  /** An entry's record is part of the bulk. */
  lemma {:induction false} PartOfBulk(entries: seq<Version>, i: nat)
    requires i < |entries|
    ensures |Payload(entries[i])| <= Bulk(entries)
  {
    hide Payload;
    if i < |entries| - 1 {
      PartOfBulk(entries[..|entries| - 1], i);
    }
  }

  lemma {:induction false} BodyBulk(groups: seq<seq<Version>>)
    requires NoEmpty(groups)
    ensures |Body(groups)| <= Bulk(Flatten(groups)) + 4 * |Flatten(groups)|
  {
    hide Payload, Records, Le;
    if groups != [] {
      var front, last := groups[..|groups| - 1], groups[|groups| - 1];
      BodyBulk(front);
      RecordsBulk(last);
      BulkSplits(Flatten(front), last);
    }
  }

  lemma {:induction false} RefBytesSplit(a: seq<BlockRef>, b: seq<BlockRef>)
    ensures |AllRefBytes(a + b)| == |AllRefBytes(a)| + |AllRefBytes(b)|
  {
    hide RefBytes;
    if a == [] {
      assert a + b == b;
    } else {
      RefBytesSplit(a[1..], b);
      assert (a + b)[1..] == a[1..] + b;
    }
  }

  lemma OneRef(r: BlockRef)
    ensures |AllRefBytes([r])| == 16 + |r.firstKey|
  {
    hide Le;
    assert AllRefBytes([r]) == RefBytes(r) + [];
  }

  lemma {:induction false} RefsBulk(groups: seq<seq<Version>>)
    requires NoEmpty(groups)
    ensures |AllRefBytes(Refs(groups))| <= Bulk(Flatten(groups)) + 16 * |Flatten(groups)|
  {
    hide Payload, Body, Block, AllRefBytes;
    if groups == [] {
      NoRefs();
    } else {
      var front, last := groups[..|groups| - 1], groups[|groups| - 1];
      RefsBulk(front);
      var r := BlockRef(last[0].key, |Body(front)|, |Block(last)|);
      RefBytesSplit(Refs(front), [r]);
      OneRef(r);
      KeyInPayload(last[0]);
      PartOfBulk(last, 0);
      BulkSplits(Flatten(front), last);
    }
  }

  lemma NoRefs()
    ensures AllRefBytes([]) == []
  {
  }

  lemma FilterSize(n: nat)
    ensures Bloom.ArrayBytes(n, Bloom.BITS_PER_KEY) <= 8 + 2 * n
  {
  }

  lemma IndexBulk(groups: seq<seq<Version>>)
    requires NoEmpty(groups) && Flatten(groups) != []
    ensures var entries := Flatten(groups);
            |IndexBody(MinKey(entries), MaxKey(entries), Refs(groups))| <= 3 * Bulk(entries) + 16 * |entries|
  {
    hide Payload, Refs, AllRefBytes, Flatten, Le;
    var entries := Flatten(groups);
    RefsBulk(groups);
    PartOfBulk(entries, 0);
    PartOfBulk(entries, |entries| - 1);
    KeyInPayload(entries[0]);
    KeyInPayload(entries[|entries| - 1]);
  }

  lemma ImageBulk(groups: seq<seq<Version>>, filter: seq<bv8>)
    requires NoEmpty(groups) && Flatten(groups) != []
    requires |filter| == Bloom.ArrayBytes(|Flatten(groups)|, Bloom.BITS_PER_KEY) + 1
    ensures |Image(groups, filter)| <= 4 * Bulk(Flatten(groups)) + 100 * |Flatten(groups)|
  {
    hide Body, Flatten, IndexBody, Refs, MinKey, MaxKey, FooterHead, Footer, Bloom.AsBytes, Bloom.ArrayBytes, Bulk, Le;
    BodyBulk(groups);
    IndexBulk(groups);
    FilterSize(|Flatten(groups)|);
    ImageParts(groups, filter);
  }

  // ---- Lists small enough to be written ----

  /** The records of one block are among those of the list. */
  lemma {:induction false} BlockInBulk(groups: seq<seq<Version>>, i: nat)
    requires i < |groups|
    ensures Bulk(groups[i]) <= Bulk(Flatten(groups))
  {
    hide Payload, Bulk;
    var front, last := groups[..|groups| - 1], groups[|groups| - 1];
    BulkSplits(Flatten(front), last);
    if i < |front| {
      BlockInBulk(front, i);
    }
  }

  lemma FieldsInPayload(v: Version)
    ensures |v.key| <= |Payload(v)| && (v.value.Some? ==> |v.value.value| <= |Payload(v)|)
  {
    hide Le;
  }

  lemma SmallEntriesFit(entries: seq<Version>)
    requires Bulk(entries) <= U32_MAX && forall v | v in entries :: v.seqno <= U64_MAX
    ensures AllFit(entries)
  {
    hide Payload, Bulk;
    forall i | 0 <= i < |entries|
      ensures Fits(entries[i])
    {
      PartOfBulk(entries, i);
      FieldsInPayload(entries[i]);
      assert entries[i] in entries;
    }
  }

  lemma SmallIndexFits(groups: seq<seq<Version>>)
    requires NoEmpty(groups) && 4 * Bulk(Flatten(groups)) + 100 * |Flatten(groups)| <= U32_MAX - 100
    ensures IndexFits(Flatten(groups), groups)
  {
    hide Payload, Bulk, Le, AllRefBytes, Refs;
    if Flatten(groups) != [] {
      hide Flatten, MinKey, MaxKey;
      IndexBulk(groups);
    } else {
      NoGroups(groups);
      NoRefs();
    }
  }

  lemma NoGroups(groups: seq<seq<Version>>)
    requires NoEmpty(groups) && Flatten(groups) == []
    ensures groups == [] && Refs(groups) == []
  {
  }

  /** A list whose records are small enough together is always written. */
  lemma SmallListsAreWritable(entries: seq<Version>)
    requires 4 * Bulk(entries) + 100 * |entries| <= U32_MAX - 100 && forall v | v in entries :: v.seqno <= U64_MAX
    ensures Writable(entries)
  {
    hide Payload, Bulk, Flatten, BlocksOf, IndexFits, AllFit, Records, Le, Bloom.ArrayBytes;
    SmallEntriesFit(entries);
    BlocksHoldAll(entries);
    var groups := BlocksOf(entries);
    SmallIndexFits(groups);
    FilterSize(|entries|);
    forall i | 0 <= i < |groups|
      ensures |Block(groups[i])| <= U32_MAX
    {
      BlockInBulk(groups, i);
      RecordsBulk(groups[i]);
    }
  }

  // ---- The weight of an entry ----

  ghost function EntryWeight(): Version -> nat {
    (v: Version) => 4 * |Payload(v)| + 100
  }

  lemma {:induction false} BulkIsSum(entries: seq<Version>)
    requires Ascending(entries)
    ensures Sum(Members(entries), EntryWeight()) == 4 * Bulk(entries) + 100 * |entries|
  {
    hide Payload, Less;
    if entries == [] {
      assert Members(entries) == {};
    } else {
      var front, last := entries[..|entries| - 1], entries[|entries| - 1];
      BulkIsSum(front);
      LastIsNew(entries);
      SumWithout(Members(entries), EntryWeight(), last);
    }
  }

  lemma LastIsNew(entries: seq<Version>)
    requires Ascending(entries) && entries != []
    ensures var last := entries[|entries| - 1];
            last in Members(entries) && Members(entries) - {last} == Members(entries[..|entries| - 1])
  {
    var front, last := entries[..|entries| - 1], entries[|entries| - 1];
    assert entries == front + [last];
    forall i | 0 <= i < |front|
      ensures front[i] != last
    {
      KeysDiffer(entries, i, |entries| - 1);
    }
  }

  /** Files laid out this way, however they are cut into blocks, are within the bound the compaction loop relies on. */
  lemma FormatIsBounded(sizes: Sizes)
    requires forall e: seq<Version> | e != [] && Ascending(e) :: LaidOut(e, sizes.finished(e))
    ensures Bounded(sizes, EntryWeight())
  {
    forall e: seq<Version> | e != [] && Ascending(e)
      ensures sizes.finished(e) <= Sum(Members(e), EntryWeight())
    {
      assert LaidOut(e, sizes.finished(e));
      LaidOutWeighs(e, sizes.finished(e));
    }
  }

  ghost predicate LaidOut(e: seq<Version>, bytes: nat) {
    exists groups, filter :: Lays(e, bytes, groups, filter)
  }

  ghost predicate Lays(e: seq<Version>, bytes: nat, groups: seq<seq<Version>>, filter: seq<bv8>) {
    && NoEmpty(groups) && Flatten(groups) == e && |filter| == Bloom.ArrayBytes(|e|, Bloom.BITS_PER_KEY) + 1
    && bytes == |Image(groups, filter)|
  }

  // ---- The compaction loop over this format ----

  function FormatSizes(): Sizes {
    Sizes(e => WrittenSize(e), e => FileSize(e))
  }

  lemma FormatSizesBounded()
    ensures Bounded(FormatSizes(), EntryWeight())
  {
    hide Bounded, EntryWeight, LaidOut;
    forall e: seq<Version> | e != [] && Ascending(e)
      ensures LaidOut(e, FormatSizes().finished(e))
    {
      FileIsLaidOut(e);
    }
    FormatIsBounded(FormatSizes());
  }

  lemma FileIsLaidOut(e: seq<Version>)
    ensures LaidOut(e, FileSize(e))
  {
    hide Image, Flatten, Bloom.ArrayBytes, FileSize, BlocksOf;
    var filter: seq<bv8> := seq(Bloom.ArrayBytes(|e|, Bloom.BITS_PER_KEY) + 1, _ => 0);
    BlocksHoldAll(e);
    ImageSize(e, filter);
    assert Lays(e, FileSize(e), BlocksOf(e), filter);
  }

  /** The loop with the sizes the writer reports: it ends, within every limit, and changes no answer. */
  method CompactFiles(start: seq<File>, first: nat, c: Config, read: File -> seq<Version>)
      returns (files: seq<File>, next: nat)
    requires Compactable(start, first) && c.target >= 1 && c.fanout >= 2 && ReadsBack(read)
    requires Sized(start, EntryWeight()) && Sum(FileSet(start), Weigh(EntryWeight())) <= U64_MAX
    ensures Settled(files, c) && Compactable(files, next)
    ensures forall k :: Answer(Contents(files), k) == Answer(Contents(start), k)
  {
    hide *;
    FormatSizesBounded();
    files, next := CompactAll(start, first, c, read, FormatSizes(), EntryWeight());
  }

  lemma LaidOutWeighs(e: seq<Version>, bytes: nat)
    requires e != [] && Ascending(e) && LaidOut(e, bytes)
    ensures bytes <= Sum(Members(e), EntryWeight())
  {
    hide Image, Flatten, Bloom.ArrayBytes, Sum, Bulk;
    var groups, filter :| Lays(e, bytes, groups, filter);
    ImageBulk(groups, filter);
    BulkIsSum(e);
  }
}
