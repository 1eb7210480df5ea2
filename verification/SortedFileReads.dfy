/** A sorted file answers lookups and scans as the list it was written from. */
module SortedFileReads {
  import opened Bounds
  import opened Keys
  import opened Versions
  import opened Coding
  import opened WalRecord
  import opened Merge
  import opened SortedFile
  import Bloom

  // ---- Reading back what was laid out ----

  lemma Middle(pre: Bytes, b: Bytes, post: Bytes)
    ensures (pre + (b + post))[|pre|..|pre| + |b|] == b
    ensures |pre + (b + post)| == |pre| + |b| + |post|
  {
  }

  lemma ReadsChecked(file: Bytes, pre: Bytes, b: Bytes, post: Bytes)
    requires file == pre + (Checked(b) + post)
    ensures ReadChecked(file, |pre|, |Checked(b)|) == Some(b)
  {
    hide Le, FromLe, Crc, Pow256;
    Middle(pre, Checked(b), post);
    Widths();
    LeRoundTrip(Crc(b), 4);
    var c := Checked(b);
    assert c[..|b|] == b && c[|b|..|b| + 4] == Le(Crc(b), 4);
  }

  predicate Fits(v: Version) {
    v.seqno <= U64_MAX && |v.key| <= U32_MAX && (v.value.Some? ==> |v.value.value| <= U32_MAX)
  }

  lemma TakesRecord(v: Version, rest: Bytes)
    requires Fits(v)
    ensures TakeRecord(Payload(v) + rest) == Some((v, rest))
  {
    hide Le, FromLe, Pow256, TakeInt, TakeField, Field;
    Widths();
    var kind := if v.value.Some? then KIND_SET else KIND_DELETE;
    var last := if v.value.Some? then Field(v.value.value) else [];
    assert Payload(v) + rest == Le(v.seqno, 8) + ([kind] + (Field(v.key) + (last + rest)));
    TakesInt(v.seqno, 8, [kind] + (Field(v.key) + (last + rest)));
    TakesKind(kind, Field(v.key) + (last + rest));
    TakesField(v.key, last + rest);
    if v.value.Some? {
      TakesField(v.value.value, rest);
    } else {
      assert [] + rest == rest;
    }
  }

  predicate RefFits(r: BlockRef) {
    |r.firstKey| <= U32_MAX && r.offset <= U64_MAX && r.len <= U32_MAX
  }

  lemma TakesRef(r: BlockRef, rest: Bytes)
    requires RefFits(r)
    ensures TakeRef(RefBytes(r) + rest) == Some((r, rest))
  {
    hide Le, FromLe, Pow256, TakeInt, TakeField, Field;
    Widths();
    assert RefBytes(r) + rest == Field(r.firstKey) + (Le(r.offset, 8) + (Le(r.len, 4) + rest));
    TakesField(r.firstKey, Le(r.offset, 8) + (Le(r.len, 4) + rest));
    TakesInt(r.offset, 8, Le(r.len, 4) + rest);
    TakesInt(r.len, 4, rest);
  }

  lemma {:induction false} ParsesRefs(refs: seq<BlockRef>)
    requires forall i | 0 <= i < |refs| :: RefFits(refs[i])
    ensures ParseRefs(AllRefBytes(refs)) == Some(refs)
  {
    hide TakeRef, RefBytes, RefFits;
    if refs != [] {
      TakesRef(refs[0], AllRefBytes(refs[1..]));
      ParsesRefs(refs[1..]);
      NotEmpty(refs[0], AllRefBytes(refs[1..]));
      assert refs == [refs[0]] + refs[1..];
    }
  }

  lemma NotEmpty(r: BlockRef, rest: Bytes)
    ensures RefBytes(r) + rest != []
  {
    assert |RefBytes(r)| > 0;
  }

  lemma ParsesIndex(min: Bytes, max: Bytes, refs: seq<BlockRef>)
    requires |min| <= U32_MAX && |max| <= U32_MAX && forall i | 0 <= i < |refs| :: RefFits(refs[i])
    ensures ParseIndex(IndexBody(min, max, refs)) == Some((min, max, refs))
  {
    hide TakeField, Field, ParseRefs, AllRefBytes;
    TakesField(min, Field(max) + AllRefBytes(refs));
    TakesField(max, AllRefBytes(refs));
    ParsesRefs(refs);
  }

  lemma IntReads(bytes: Bytes, pre: Bytes, n: nat, width: nat, post: Bytes)
    requires bytes == pre + (Le(n, width) + post) && n < Pow256(width)
    ensures |pre| + width <= |bytes| && IntAt(bytes, |pre|, width) == n
  {
    hide Le, FromLe, Pow256;
    Middle(pre, Le(n, width), post);
    LeRoundTrip(n, width);
  }

  /** The footer's fields, read at their fixed offsets. */
  lemma FooterReads(indexOffset: nat, indexLen: nat, filterOffset: nat, filterLen: nat, entries: nat)
    requires indexOffset <= U64_MAX && indexLen <= U32_MAX && filterOffset <= U64_MAX && filterLen <= U32_MAX
             && entries <= U64_MAX
    ensures var f := Footer(FooterHead(indexOffset, indexLen, filterOffset, filterLen, entries));
            && IntAt(f, 0, 8) == indexOffset && IntAt(f, 8, 4) == indexLen
            && IntAt(f, 12, 8) == filterOffset && IntAt(f, 20, 4) == filterLen && IntAt(f, 24, 8) == entries
  {
    hide IntAt, Pow256, FromLe, Le, Crc;
    Widths();
    var a, b, c, d, e := Le(indexOffset, 8), Le(indexLen, 4), Le(filterOffset, 8), Le(filterLen, 4), Le(entries, 8);
    var head := FooterHead(indexOffset, indexLen, filterOffset, filterLen, entries);
    var tail := Le(Crc(head), 4) + (Le(FORMAT_VERSION, 4) + Magic());
    var f := Footer(head);
    assert f == [] + (a + (b + (c + (d + (e + tail)))));
    IntReads(f, [], indexOffset, 8, b + (c + (d + (e + tail))));
    assert f == a + (b + (c + (d + (e + tail))));
    IntReads(f, a, indexLen, 4, c + (d + (e + tail)));
    assert f == (a + b) + (c + (d + (e + tail)));
    IntReads(f, a + b, filterOffset, 8, d + (e + tail));
    assert f == (a + b + c) + (d + (e + tail));
    IntReads(f, a + b + c, filterLen, 4, e + tail);
    assert f == (a + b + c + d) + (e + tail);
    IntReads(f, a + b + c + d, entries, 8, tail);
  }

  lemma FooterIsOk(head: Bytes)
    requires |head| == FOOTER_CHECKED
    ensures FooterOk(Footer(head))
  {
    hide IntAt, Pow256, FromLe, Le, Crc;
    Widths();
    var f, crc, version := Footer(head), Le(Crc(head), 4), Le(FORMAT_VERSION, 4);
    assert f == head + (crc + (version + Magic()));
    IntReads(f, head, Crc(head), 4, version + Magic());
    assert f == (head + crc) + (version + Magic());
    IntReads(f, head + crc, FORMAT_VERSION, 4, Magic());
    assert f[FOOTER_LEN - 8..] == Magic() && f[..FOOTER_CHECKED] == head;
  }

  // ---- Opening ----

  /** Every length and offset fits the field that holds it. */
  ghost predicate Storable(groups: seq<seq<Version>>, filter: seq<bv8>)
    requires NoEmpty(groups)
  {
    var entries := Flatten(groups);
    && (forall i | 0 <= i < |entries| :: Fits(entries[i]))
    && |entries| <= U64_MAX && |Image(groups, filter)| <= U64_MAX
    && (forall i | 0 <= i < |groups| :: |Block(groups[i])| <= U32_MAX)
    && |Bloom.AsBytes(filter)| + CRC_LEN <= U32_MAX
    && |IndexBody(MinKey(entries), MaxKey(entries), Refs(groups))| + CRC_LEN <= U32_MAX
  }

  /** The filter answers for every key of the file. */
  ghost predicate Covers(filter: seq<bv8>, entries: seq<Version>) {
    Bloom.WellFormed(filter) && forall i | 0 <= i < |entries| :: Bloom.MayContain(filter, Bloom.HashOf(entries[i].key))
  }

  lemma {:induction false} RefAt(groups: seq<seq<Version>>, i: nat)
    requires NoEmpty(groups) && i < |groups|
    ensures Refs(groups)[i] == BlockRef(groups[i][0].key, |Body(groups[..i])|, |Block(groups[i])|)
    decreases |groups|
  {
    hide Block, Body;
    var front := groups[..|groups| - 1];
    if i < |front| {
      RefAt(front, i);
      assert front[..i] == groups[..i];
    }
  }

  lemma {:induction false} BodySplits(groups: seq<seq<Version>>, i: nat) returns (post: Bytes)
    requires i < |groups|
    ensures Body(groups) == Body(groups[..i]) + (Block(groups[i]) + post)
    decreases |groups|
  {
    hide Block;
    var front := groups[..|groups| - 1];
    if i == |front| {
      post := [];
      assert Block(groups[i]) + [] == Block(groups[i]);
    } else {
      var rest := BodySplits(front, i);
      assert front[..i] == groups[..i];
      post := rest + Block(groups[|groups| - 1]);
      Regroup(Body(groups[..i]), Block(groups[i]), rest, Block(groups[|groups| - 1]));
    }
  }

  lemma Regroup(a: Bytes, b: Bytes, c: Bytes, d: Bytes)
    ensures (a + (b + c)) + d == a + (b + (c + d))
  {
  }

  lemma GroupKeyFits(groups: seq<seq<Version>>, i: nat)
    requires NoEmpty(groups) && i < |groups| && forall k | 0 <= k < |Flatten(groups)| :: Fits(Flatten(groups)[k])
    ensures |groups[i][0].key| <= U32_MAX
  {
    var j := FirstOf(groups, i);
    assert Fits(Flatten(groups)[j]);
  }

  /** Where a group starts in the whole list. */
  lemma {:induction false} FirstOf(groups: seq<seq<Version>>, i: nat) returns (at: nat)
    requires i < |groups|
    ensures at == |Flatten(groups[..i])| && at + |groups[i]| <= |Flatten(groups)|
    ensures forall k | 0 <= k < |groups[i]| :: Flatten(groups)[at + k] == groups[i][k]
    ensures NoEmpty(groups) ==> at < |Flatten(groups)| && Flatten(groups)[at] == groups[i][0]
    decreases |groups|
  {
    var front := groups[..|groups| - 1];
    if i == |front| {
      at := |Flatten(front)|;
      assert forall k | 0 <= k < |groups[i]| :: Flatten(groups)[at + k] == groups[i][k];
      assert NoEmpty(groups) ==> Flatten(groups)[at + 0] == groups[i][0];
    } else {
      at := FirstOf(front, i);
      assert front[..i] == groups[..i];
      assert NoEmpty(groups) ==> NoEmpty(front);
    }
  }

  lemma StorableParts(groups: seq<seq<Version>>, filter: seq<bv8>)
    requires NoEmpty(groups) && Storable(groups, filter)
    ensures var entries, index := Flatten(groups),
            IndexBody(MinKey(Flatten(groups)), MaxKey(Flatten(groups)), Refs(groups));
            && (forall i | 0 <= i < |entries| :: Fits(entries[i])) && |entries| <= U64_MAX
               && |Image(groups, filter)| <= U64_MAX
            && (forall i | 0 <= i < |groups| :: |Block(groups[i])| <= U32_MAX)
            && |Checked(Bloom.AsBytes(filter))| <= U32_MAX && |Checked(index)| <= U32_MAX
  {
    hide Fits, Flatten, Image, Block, IndexBody, Refs, Bloom.AsBytes;
  }

  lemma ImageParts(groups: seq<seq<Version>>, filter: seq<bv8>)
    requires NoEmpty(groups)
    ensures var bloom, index := Checked(Bloom.AsBytes(filter)),
            Checked(IndexBody(MinKey(Flatten(groups)), MaxKey(Flatten(groups)), Refs(groups)));
            var body := Body(groups);
            Image(groups, filter) == body + (bloom + (index
                                                      + Footer(FooterHead(|body| + |bloom|, |index|, |body|, |bloom|,
                                                                          |Flatten(groups)|))))
  {
    hide Checked, Bloom.AsBytes, IndexBody, MinKey, MaxKey, Flatten, Refs, Body, Footer, FooterHead, Le;
  }

  lemma RefFitsAt(groups: seq<seq<Version>>, filter: seq<bv8>, i: nat)
    requires NoEmpty(groups) && Storable(groups, filter) && i < |groups|
    ensures RefFits(Refs(groups)[i])
  {
    hide *;
    StorableParts(groups, filter);
    ImageParts(groups, filter);
    RefAt(groups, i);
    GroupKeyFits(groups, i);
    var post := BodySplits(groups, i);
    IsRefFit(Refs(groups)[i]);
  }

  lemma IsRefFit(r: BlockRef)
    ensures |r.firstKey| <= U32_MAX && r.offset <= U64_MAX && r.len <= U32_MAX ==> RefFits(r)
  {
  }

  lemma RefsFit(groups: seq<seq<Version>>, filter: seq<bv8>)
    requires NoEmpty(groups) && Storable(groups, filter)
    ensures forall i | 0 <= i < |Refs(groups)| :: RefFits(Refs(groups)[i])
  {
    hide *;
    forall i | 0 <= i < |Refs(groups)|
      ensures RefFits(Refs(groups)[i])
    {
      RefFitsAt(groups, filter, i);
    }
  }

  lemma EndKeysFit(entries: seq<Version>)
    requires forall i | 0 <= i < |entries| :: Fits(entries[i])
    ensures |MinKey(entries)| <= U32_MAX && |MaxKey(entries)| <= U32_MAX
  {
  }

  /** Opening a file loads exactly what was laid out. */
  lemma OpensImage(groups: seq<seq<Version>>, filter: seq<bv8>)
    requires NoEmpty(groups) && Storable(groups, filter) && Bloom.WellFormed(filter)
    ensures var entries := Flatten(groups);
            Opened(Image(groups, filter))
            == Some(Table(Image(groups, filter), Refs(groups), filter, MinKey(entries), MaxKey(entries), |entries|))
  {
    hide *;
    var entries := Flatten(groups);
    StorableParts(groups, filter);
    ImageParts(groups, filter);
    RefsFit(groups, filter);
    EndKeysFit(entries);
    Bloom.DecodesStored(filter);
    ParsesIndex(MinKey(entries), MaxKey(entries), Refs(groups));
    OpensParts(Image(groups, filter), Body(groups), Bloom.AsBytes(filter),
               IndexBody(MinKey(entries), MaxKey(entries), Refs(groups)), |entries|);
  }

  /** Opening by sections: the footer leads to the index and the filter. */
  lemma OpensParts(file: Bytes, body: Bytes, stored: Bytes, index: Bytes, entries: nat)
    requires |Checked(stored)| <= U32_MAX && |Checked(index)| <= U32_MAX && entries <= U64_MAX && |file| <= U64_MAX
    requires file == body + (Checked(stored) + (Checked(index)
                     + Footer(FooterHead(|body| + |Checked(stored)|, |Checked(index)|, |body|, |Checked(stored)|,
                                         entries))))
    ensures var parsed, filter := ParseIndex(index), Bloom.Decode(stored);
            parsed.Some? && filter.Some? ==>
              Opened(file) == Some(Table(file, parsed.value.2, filter.value, parsed.value.0, parsed.value.1, entries))
  {
    hide *;
    var bloom, table := Checked(stored), Checked(index);
    var head := FooterHead(|body| + |bloom|, |table|, |body|, |bloom|, entries);
    var footer := Footer(head);
    FooterReads(|body| + |bloom|, |table|, |body|, |bloom|, entries);
    FooterIsOk(head);
    FooterIsLast(file, body, bloom, table, footer);
    ReadsChecked(file, body, stored, table + footer);
    ReadsChecked(file, body + bloom, index, footer);
    OpenSteps(file, |file| - FOOTER_LEN);
  }

  lemma FooterIsLast(file: Bytes, body: Bytes, bloom: Bytes, table: Bytes, footer: Bytes)
    requires file == body + (bloom + (table + footer)) && |footer| == FOOTER_LEN
    ensures |file| == |body| + |bloom| + |table| + FOOTER_LEN && file[|file| - FOOTER_LEN..] == footer
    ensures file == (body + bloom) + (table + footer) && |body + bloom| == |body| + |bloom|
  {
  }

  lemma OpenSteps(file: Bytes, trailer: nat)
    requires |file| == trailer + FOOTER_LEN && FooterOk(file[trailer..])
    ensures var footer := file[trailer..];
            var io, il, fo, fl := IntAt(footer, 0, 8), IntAt(footer, 8, 4), IntAt(footer, 12, 8), IntAt(footer, 20, 4);
            var index, stored := ReadChecked(file, io, il), ReadChecked(file, fo, fl);
            io + il <= trailer && fo + fl <= trailer && index.Some? && stored.Some? ==>
              var parsed, filter := ParseIndex(index.value), Bloom.Decode(stored.value);
              parsed.Some? && filter.Some? ==>
                Opened(file) == Some(Table(file, parsed.value.2, filter.value, parsed.value.0, parsed.value.1,
                                           IntAt(footer, 24, 8)))
  {
    hide FooterOk, IntAt, ReadChecked, ParseIndex, Bloom.Decode;
  }

  // ---- Lookups ----

  /** What a lookup in the list answers. */
  ghost function Listed(entries: seq<Version>, key: Bytes): Lookup {
    Shown(Newest(Members(entries), key))
  }

  lemma ListedAt(entries: seq<Version>, i: nat, key: Bytes)
    requires Ascending(entries) && i < |entries| && entries[i].key == key
    ensures Listed(entries, key) == Shown(Some(entries[i]))
  {
    assert entries[i] in Members(entries);
    forall j | 0 <= j < |entries| && entries[j].key == key
      ensures j == i
    {
      KeysDiffer(entries, i, j);
    }
    var found := Newest(Members(entries), key);
    assert HasKey(Members(entries), key);
  }

  lemma NotListed(entries: seq<Version>, key: Bytes)
    requires forall i | 0 <= i < |entries| :: entries[i].key != key
    ensures Listed(entries, key) == Missing
  {
    assert !HasKey(Members(entries), key);
  }

  lemma {:induction false} RecordsFront(entries: seq<Version>)
    requires entries != []
    ensures Records(entries) == Payload(entries[0]) + Records(entries[1..])
  {
    hide Payload;
    var n := |entries| - 1;
    if n == 0 {
      assert Records(entries) == Records([]) + Payload(entries[0]) == [] + Payload(entries[0]);
      assert entries[..0] == [];
      assert [] + Payload(entries[0]) == Payload(entries[0]) + [];
    } else {
      RecordsFront(entries[..n]);
      assert entries[..n][1..] == entries[1..][..n - 1] && entries[1..][n - 1] == entries[n];
      Associates(Payload(entries[0]), Records(entries[1..][..n - 1]), Payload(entries[n]));
    }
  }

  ghost predicate AllFit(entries: seq<Version>) {
    forall i | 0 <= i < |entries| :: Fits(entries[i])
  }

  /** Walking a block answers as the list of its records. */
  lemma {:induction false} ScansBlock(entries: seq<Version>, key: Bytes)
    requires Ascending(entries) && AllFit(entries)
    ensures ScanBlock(Records(entries), key) == Some(Listed(entries, key))
  {
    hide Payload, TakeRecord, Listed, Less, Fits;
    if entries == [] {
      NotListed(entries, key);
    } else {
      RecordsFront(entries);
      TakesRecord(entries[0], Records(entries[1..]));
      TailAscends(entries[0], entries[1..]);
      assert entries == [entries[0]] + entries[1..];
      ScansBlock(entries[1..], key);
      ListedByFront(entries, key);
      assert |Payload(entries[0])| > 0;
    }
  }

  lemma ListedByFront(entries: seq<Version>, key: Bytes)
    requires Ascending(entries) && entries != []
    ensures Less(entries[0].key, key) ==> Listed(entries, key) == Listed(entries[1..], key)
    ensures entries[0].key == key ==> Listed(entries, key) == Shown(Some(entries[0]))
    ensures !Less(entries[0].key, key) && entries[0].key != key ==> Listed(entries, key) == Missing
  {
    KeyOrder();
    hide Listed, Less;
    if entries[0].key == key {
      ListedAt(entries, 0, key);
    } else if i :| 1 <= i < |entries| && entries[i].key == key {
      assert Less(entries[0].key, entries[i].key);
      ListedAt(entries, i, key);
      var rest := entries[1..];
      assert rest[i - 1] == entries[i];
      assert Ascending(rest);
      ListedAt(rest, i - 1, key);
    } else {
      NotListed(entries, key);
      assert forall j | 0 <= j < |entries[1..]| :: entries[1..][j] == entries[j + 1];
      NotListed(entries[1..], key);
    }
  }

  /** Each group is a stretch of the ascending whole. */
  lemma GroupAscends(groups: seq<seq<Version>>, i: nat)
    requires Ascending(Flatten(groups)) && i < |groups|
    ensures Ascending(groups[i])
    ensures AllFit(Flatten(groups)) ==> AllFit(groups[i])
  {
    var at := FirstOf(groups, i);
    forall j, k | 0 <= j < k < |groups[i]|
      ensures Less(groups[i][j].key, groups[i][k].key)
    {
      assert Flatten(groups)[at + j] == groups[i][j] && Flatten(groups)[at + k] == groups[i][k];
    }
    forall k | 0 <= k < |groups[i]|
      ensures AllFit(Flatten(groups)) ==> Fits(groups[i][k])
    {
      assert Flatten(groups)[at + k] == groups[i][k];
    }
  }

  /** An entry of the whole belongs to some group, at some place. */
  lemma {:induction false} GroupOf(groups: seq<seq<Version>>, k: nat) returns (i: nat, j: nat)
    requires k < |Flatten(groups)|
    ensures i < |groups| && j < |groups[i]| && groups[i][j] == Flatten(groups)[k] && k == |Flatten(groups[..i])| + j
    decreases |groups|
  {
    var front := groups[..|groups| - 1];
    if k < |Flatten(front)| {
      i, j := GroupOf(front, k);
      assert front[..i] == groups[..i];
    } else {
      i, j := |groups| - 1, k - |Flatten(front)|;
    }
  }

  /** The last block that starts at or before a key is the only one that can hold it. */
  lemma OnlyCandidate(groups: seq<seq<Version>>, n: nat, key: Bytes)
    requires NoEmpty(groups) && Ascending(Flatten(groups)) && n <= |groups|
    requires forall i | 0 <= i < n :: !Less(key, groups[i][0].key)
    requires n < |groups| ==> Less(key, groups[n][0].key)
    ensures n == 0 ==> Listed(Flatten(groups), key) == Missing
    ensures n > 0 ==> Listed(Flatten(groups), key) == Listed(groups[n - 1], key)
  {
    hide Listed, Flatten, Ascending;
    if k :| 0 <= k < |Flatten(groups)| && Flatten(groups)[k].key == key {
      var i, j := GroupOf(groups, k);
      HolderIsCandidate(groups, n, key, i, j);
      ListedAt(Flatten(groups), k, key);
      GroupAscends(groups, i);
      ListedAt(groups[i], j, key);
    } else {
      NotListed(Flatten(groups), key);
      if n > 0 {
        var at := FirstOf(groups, n - 1);
        var last := groups[n - 1];
        forall k | 0 <= k < |last|
          ensures last[k].key != key
        {
          assert Flatten(groups)[at + k] == last[k];
        }
        NotListed(groups[n - 1], key);
      }
    }
  }

  lemma HolderIsCandidate(groups: seq<seq<Version>>, n: nat, key: Bytes, i: nat, j: nat)
    requires NoEmpty(groups) && Ascending(Flatten(groups)) && n <= |groups|
    requires forall h | 0 <= h < n :: !Less(key, groups[h][0].key)
    requires n < |groups| ==> Less(key, groups[n][0].key)
    requires i < |groups| && j < |groups[i]| && groups[i][j].key == key
    ensures n > 0 && i == n - 1
  {
    KeyOrder();
    var at := FirstOf(groups, i);
    assert j > 0 ==> Less(Flatten(groups)[at + 0].key, Flatten(groups)[at + j].key);
    assert !Less(key, groups[i][0].key);
    if i >= n {
      GroupsInOrder(groups, n, i, 0);
    } else if i < n - 1 {
      GroupsInOrder(groups, i, n - 1, j);
    }
  }

  /** Everything in an earlier group sorts before the start of a later one. */
  lemma GroupsInOrder(groups: seq<seq<Version>>, i: nat, h: nat, j: nat)
    requires NoEmpty(groups) && Ascending(Flatten(groups)) && i <= h < |groups| && j < |groups[i]|
    ensures i < h ==> Less(groups[i][j].key, groups[h][0].key)
    ensures i == h && j == 0 ==> groups[i][j] == groups[h][0]
  {
    var a := FirstOf(groups, i);
    var b := FirstOf(groups, h);
    if i < h {
      FlattenGrows(groups, i, h);
      assert Flatten(groups)[a + j] == groups[i][j] && Flatten(groups)[b + 0] == groups[h][0];
    }
  }

  lemma {:induction false} FlattenGrows(groups: seq<seq<Version>>, i: nat, h: nat)
    requires i < h <= |groups|
    ensures |Flatten(groups[..i])| + |groups[i]| <= |Flatten(groups[..h])|
    decreases h
  {
    assert groups[..h][..h - 1] == groups[..h - 1] && groups[..h][h - 1] == groups[h - 1];
    if i < h - 1 {
      FlattenGrows(groups, i, h - 1);
    }
  }

  lemma OutOfRange(entries: seq<Version>, key: Bytes)
    requires Ascending(entries) && (Less(key, MinKey(entries)) || Less(MaxKey(entries), key))
    ensures Listed(entries, key) == Missing
  {
    forall i | 0 <= i < |entries|
      ensures entries[i].key != key
    {
      InRange(entries, i);
    }
    NotListed(entries, key);
  }

  lemma InRange(entries: seq<Version>, i: nat)
    requires Ascending(entries) && i < |entries|
    ensures !Less(entries[i].key, MinKey(entries)) && !Less(MaxKey(entries), entries[i].key)
  {
    KeyOrder();
    assert i > 0 ==> Less(entries[0].key, entries[i].key);
    assert i < |entries| - 1 ==> Less(entries[i].key, entries[|entries| - 1].key);
  }

  lemma FilteredOut(filter: seq<bv8>, entries: seq<Version>, key: Bytes)
    requires Covers(filter, entries) && !Bloom.MayContain(filter, Bloom.HashOf(key))
    ensures Listed(entries, key) == Missing
  {
    hide Bloom.MayContain, Bloom.HashOf;
    NotListed(entries, key);
  }

  lemma CandidateBlock(groups: seq<seq<Version>>, filter: seq<bv8>, i: nat)
    requires NoEmpty(groups) && i < |groups|
    ensures ReadChecked(Image(groups, filter), Refs(groups)[i].offset, Refs(groups)[i].len) == Some(Records(groups[i]))
  {
    hide *;
    RefAt(groups, i);
    var post := BodySplits(groups, i);
    ImageParts(groups, filter);
    var file, pre := Image(groups, filter), Body(groups[..i]);
    var after := file[|Body(groups)|..];
    BlockIs(groups[i]);
    Nested(file, Body(groups), after, pre, Block(groups[i]), post);
    ReadsChecked(file, pre, Records(groups[i]), post + after);
  }

  lemma BlockIs(entries: seq<Version>)
    ensures Block(entries) == Checked(Records(entries))
  {
  }

  lemma Nested(file: Bytes, body: Bytes, after: Bytes, pre: Bytes, block: Bytes, post: Bytes)
    requires |body| <= |file| && after == file[|body|..] && file[..|body|] == body && body == pre + (block + post)
    ensures file == pre + (block + (post + after))
  {
    assert file == body + after;
  }

  lemma RefsStart(groups: seq<seq<Version>>)
    requires NoEmpty(groups)
    ensures forall i | 0 <= i < |groups| :: Refs(groups)[i].firstKey == groups[i][0].key
  {
    hide Refs, Body, Block;
    forall i | 0 <= i < |groups|
      ensures Refs(groups)[i].firstKey == groups[i][0].key
    {
      RefAt(groups, i);
    }
  }

  /** A lookup in the opened file answers as a lookup in the list, for every key. */
  lemma LookupRefinesList(groups: seq<seq<Version>>, filter: seq<bv8>, key: Bytes)
    requires NoEmpty(groups) && Storable(groups, filter) && Ascending(Flatten(groups))
             && Covers(filter, Flatten(groups))
    ensures var table := Opened(Image(groups, filter));
            table.Some? && |table.value.filter| >= 2 && Looked(table.value, key) == Some(Listed(Flatten(groups), key))
  {
    hide *;
    var entries := Flatten(groups);
    CoversParts(filter, entries);
    OpensImage(groups, filter);
    var table := Opened(Image(groups, filter)).value;
    LookSteps(table, key);
    StorableParts(groups, filter);
    if Less(key, table.minKey) || Less(table.maxKey, key) {
      OutOfRange(entries, key);
    } else if !Bloom.MayContain(table.filter, Bloom.HashOf(key)) {
      FilteredOut(filter, entries, key);
    } else {
      var n := Candidates(table.blocks, key);
      RefsStart(groups);
      OnlyCandidate(groups, n, key);
      if n > 0 {
        CandidateBlock(groups, filter, n - 1);
        IsAllFit(entries);
        GroupAscends(groups, n - 1);
        ScansBlock(groups[n - 1], key);
      }
    }
  }

  lemma IsAllFit(entries: seq<Version>)
    ensures (forall i | 0 <= i < |entries| :: Fits(entries[i])) ==> AllFit(entries)
  {
  }

  lemma CoversParts(filter: seq<bv8>, entries: seq<Version>)
    requires Covers(filter, entries)
    ensures Bloom.WellFormed(filter) && |filter| >= 2
  {
  }

  lemma LookSteps(table: Table, key: Bytes)
    requires |table.filter| >= 2
    ensures var out := Less(key, table.minKey) || Less(table.maxKey, key);
            var may, n := Bloom.MayContain(table.filter, Bloom.HashOf(key)), Candidates(table.blocks, key);
            && (out || !may || n == 0 ==> Looked(table, key) == Some(Missing))
            && (!out && may && n > 0 ==>
                  var bytes := ReadChecked(table.file, table.blocks[n - 1].offset, table.blocks[n - 1].len);
                  bytes.Some? ==> Looked(table, key) == ScanBlock(bytes.value, key))
  {
    hide Bloom.MayContain, Bloom.HashOf, Candidates, ReadChecked, ScanBlock, Less;
  }
}
