/** The tables a store holds in memory and on disk, and the search through them. */
module Levels {
  import opened Keys
  import opened Versions
  import opened Files

  // ---- Searching a stack of tables, newest first ----

  ghost function FirstHit(layers: seq<set<Version>>, k: Bytes): Option<Version> {
    if layers == [] then None
    else if HasKey(layers[0], k) then Newest(layers[0], k)
    else FirstHit(layers[1..], k)
  }

  ghost function Union(layers: seq<set<Version>>): set<Version> {
    set i, v | 0 <= i < |layers| && v in layers[i] :: v
  }

  /** The newest version of a key in one layer is no older than any version of it in a later layer. */
  ghost predicate Covered(top: set<Version>, below: set<Version>) {
    forall v, w | v in top && w in below && v.key == w.key && NewestIn(v, top) :: w.seqno <= v.seqno
  }

  ghost predicate Stacked(layers: seq<set<Version>>) {
    forall i, j | 0 <= i < j < |layers| :: Covered(layers[i], layers[j])
  }

  /** Stopping at the first table that answers gives the newest version anywhere. */
  lemma {:induction false} FirstHitIsNewest(layers: seq<set<Version>>, k: Bytes)
    requires Stacked(layers) && Distinct(Union(layers))
    ensures FirstHit(layers, k) == Newest(Union(layers), k)
  {
    if layers != [] {
      var rest := layers[1..];
      UnionSplits(layers);
      forall i, j | 0 <= i < j < |rest|
        ensures Covered(rest[i], rest[j])
      {
        assert rest[i] == layers[i + 1] && rest[j] == layers[j + 1];
      }
      FirstHitIsNewest(rest, k);
      var found := Newest(Union(layers), k);
      if HasKey(layers[0], k) {
        var v := Newest(layers[0], k).value;
        assert v in Union(layers) && HasKey(Union(layers), k);
        forall w | w in Union(layers) && w.key == k
          ensures w.seqno <= v.seqno
        {
          var j :| 0 <= j < |layers| && w in layers[j];
          if j > 0 {
            assert Covered(layers[0], layers[j]);
          }
        }
        assert found.value.seqno == v.seqno;
      } else {
        var inRest := Newest(Union(rest), k);
        if inRest.Some? {
          assert inRest.value in Union(layers) && HasKey(Union(layers), k);
        }
        if found.Some? {
          assert found.value in Union(rest) && HasKey(Union(rest), k);
          assert found.value.seqno == inRest.value.seqno;
        }
      }
    }
  }

  lemma UnionSplits(layers: seq<set<Version>>)
    requires layers != []
    ensures Union(layers) == layers[0] + Union(layers[1..])
  {
    var rest := layers[1..];
    forall v | v in Union(layers)
      ensures v in layers[0] + Union(rest)
    {
      var i :| 0 <= i < |layers| && v in layers[i];
      if i > 0 {
        assert rest[i - 1] == layers[i];
      }
    }
    forall v | v in Union(rest)
      ensures v in Union(layers)
    {
      var i :| 0 <= i < |rest| && v in rest[i];
      assert rest[i] == layers[i + 1];
    }
  }

  // ---- Files by level ----

  ghost predicate NewestFirst(files: seq<File>) {
    forall i, j | 0 <= i < j < |files| :: files[i].number > files[j].number
  }

  ghost predicate SortedApart(files: seq<File>) {
    && (forall f | f in files :: AtMost(f.minKey, f.maxKey))
    && (forall i, j | 0 <= i < j < |files| :: Less(files[i].maxKey, files[j].minKey))
  }

  ghost predicate Searchable(levels: seq<seq<File>>) {
    forall l | 1 <= l < |levels| :: SortedApart(levels[l])
  }

  /** `levels` holds exactly `files`, each at its level, in the order a lookup wants. */
  ghost predicate Organized(levels: seq<seq<File>>, files: seq<File>) {
    && |levels| > 0
    && (forall l, f | 0 <= l < |levels| && f in levels[l] :: f.level == l && f in files)
    && (forall f | f in files :: f.level < |levels| && f in levels[f.level])
    && NewestFirst(levels[0])
    && Searchable(levels)
  }

  ghost function LevelZero(files: seq<File>): seq<set<Version>> {
    seq(|files|, i requires 0 <= i < |files| => files[i].content)
  }

  ghost function Deeper(levels: seq<seq<File>>): seq<set<Version>>
    requires |levels| > 0
  {
    seq(|levels| - 1, l requires 0 <= l < |levels| - 1 => Contents(levels[l + 1]))
  }

  /** The layers a lookup walks: each level 0 file on its own, then each deeper level as a whole. */
  ghost function LayersOf(levels: seq<seq<File>>): seq<set<Version>>
    requires |levels| > 0
  {
    LevelZero(levels[0]) + Deeper(levels)
  }

  lemma OrganizedContents(levels: seq<seq<File>>, files: seq<File>)
    requires Organized(levels, files)
    ensures Union(LayersOf(levels)) == Contents(files)
  {
    var layers := LayersOf(levels);
    var n := |levels[0]|;
    forall v | v in Union(layers)
      ensures v in Contents(files)
    {
      var i :| 0 <= i < |layers| && v in layers[i];
      if i < n {
        assert levels[0][i] in levels[0];
      } else {
        var f :| f in levels[i - n + 1] && v in f.content;
      }
    }
    forall v | v in Contents(files)
      ensures v in Union(layers)
    {
      var f :| f in files && v in f.content;
      if f.level == 0 {
        var i :| 0 <= i < n && levels[0][i] == f;
        assert v in layers[i];
      } else {
        assert v in Contents(levels[f.level]);
        assert layers[n + f.level - 1] == Contents(levels[f.level]);
      }
    }
  }

  /** The file a layer's version sits in. */
  lemma LayerSource(levels: seq<seq<File>>, files: seq<File>, i: nat, v: Version) returns (f: File)
    requires Organized(levels, files) && i < |LayersOf(levels)| && v in LayersOf(levels)[i]
    ensures f in files && v in f.content
    ensures i < |levels[0]| ==> f == levels[0][i] && f.level == 0
    ensures i >= |levels[0]| ==> f.level == i - |levels[0]| + 1
  {
    var n := |levels[0]|;
    if i < n {
      f := levels[0][i];
      assert f in levels[0];
    } else {
      assert LayersOf(levels)[i] == Contents(levels[i - n + 1]);
      f :| f in levels[i - n + 1] && v in f.content;
    }
  }

  /** In a well laid out file set the search order is the recency order. */
  lemma OrganizedStacks(levels: seq<seq<File>>, files: seq<File>)
    requires Organized(levels, files) && Layout(files)
    ensures Stacked(LayersOf(levels))
  {
    var layers := LayersOf(levels);
    forall i, j | 0 <= i < j < |layers|
      ensures Covered(layers[i], layers[j])
    {
      forall v: Version, w: Version | v in layers[i] && w in layers[j] && v.key == w.key
        ensures w.seqno <= v.seqno
      {
        var f := LayerSource(levels, files, i, v);
        var g := LayerSource(levels, files, j, w);
        assert SearchedBefore(f, g);
        assert Shadows(f, g);
      }
    }
  }

  /** The order of level 0 is decided by the file numbers alone, and that of deeper levels by the keys. */
  lemma OrganizedIsUnique(a: seq<seq<File>>, b: seq<seq<File>>, files: seq<File>)
    requires Organized(a, files) && Organized(b, files)
    ensures forall l | 0 <= l < |a| && l < |b| :: a[l] == b[l]
    ensures forall l | |b| <= l < |a| :: a[l] == []
  {
    forall l | 0 <= l < |a| && l < |b|
      ensures a[l] == b[l]
    {
      assert forall f :: f in a[l] <==> f in b[l];
      if l == 0 {
        NewestFirstUnique(a[0], b[0]);
      } else {
        SortedApartUnique(a[l], b[l]);
      }
    }
    forall l | |b| <= l < |a|
      ensures a[l] == []
    {
      HeadIsMember(a[l]);
    }
  }

  lemma HeadIsMember(files: seq<File>)
    ensures files != [] ==> files[0] in files
  {
  }

  lemma {:induction false} NewestFirstUnique(a: seq<File>, b: seq<File>)
    requires NewestFirst(a) && NewestFirst(b)
    requires forall f :: f in a <==> f in b
    ensures a == b
  {
    if a == [] {
      HeadIsMember(b);
    } else {
      assert a[0] in b && b != [] && b[0] in a;
      assert a[0] == b[0];
      assert forall f :: f in a[1..] <==> f in a && f != a[0];
      assert forall f :: f in b[1..] <==> f in b && f != b[0];
      NewestFirstUnique(a[1..], b[1..]);
    }
  }

  lemma {:induction false} SortedApartUnique(a: seq<File>, b: seq<File>)
    requires SortedApart(a) && SortedApart(b)
    requires forall f :: f in a <==> f in b
    ensures a == b
  {
    KeyOrder();
    if a == [] {
      HeadIsMember(b);
    } else {
      assert a[0] in b && b != [] && b[0] in a;
      assert a[0] == b[0];
      assert forall f :: f in a[1..] <==> f in a && f != a[0];
      assert forall f :: f in b[1..] <==> f in b && f != b[0];
      SortedApartUnique(a[1..], b[1..]);
    }
  }

  // ---- Changing the levels ----

  function InsertByMin(files: seq<File>, f: File): (r: seq<File>)
    ensures multiset(r) == multiset(files) + multiset{f}
  {
    if files == [] || AtMost(f.minKey, files[0].minKey) then [f] + files
    else
      assert files == [files[0]] + files[1..];
      [files[0]] + InsertByMin(files[1..], f)
  }

  /** The files of one level sorted by their smallest key. */
  function SortByMin(files: seq<File>): (r: seq<File>)
    ensures multiset(r) == multiset(files)
  {
    if files == [] then []
    else
      assert files == [files[0]] + files[1..];
      InsertByMin(SortByMin(files[1..]), files[0])
  }

  function InsertByNumber(files: seq<File>, f: File): (r: seq<File>)
    ensures multiset(r) == multiset(files) + multiset{f}
  {
    if files == [] || f.number >= files[0].number then [f] + files
    else
      assert files == [files[0]] + files[1..];
      [files[0]] + InsertByNumber(files[1..], f)
  }

  /** The files of level 0, highest number first. */
  function SortNewestFirst(files: seq<File>): (r: seq<File>)
    ensures multiset(r) == multiset(files)
  {
    if files == [] then []
    else
      assert files == [files[0]] + files[1..];
      InsertByNumber(SortNewestFirst(files[1..]), files[0])
  }

  ghost predicate PairwiseApart(files: seq<File>) {
    && (forall f | f in files :: AtMost(f.minKey, f.maxKey))
    && (forall i, j | 0 <= i < j < |files| :: Apart(files[i], files[j]))
  }

  lemma {:induction false} InsertByMinApart(files: seq<File>, f: File)
    requires SortedApart(files) && AtMost(f.minKey, f.maxKey)
    requires forall g | g in files :: Apart(f, g)
    ensures SortedApart(InsertByMin(files, f))
    ensures forall g :: g in InsertByMin(files, f) <==> g in files || g == f
  {
    if files == [] || AtMost(f.minKey, files[0].minKey) {
      forall g | g in files
        ensures Less(f.maxKey, g.minKey)
      {
        var j :| 0 <= j < |files| && files[j] == g;
        if j > 0 {
          FirstHasLeastMin(files, j);
        }
        LeftOf(f, g);
      }
      ConsApart(f, files);
    } else {
      assert files == [files[0]] + files[1..];
      InsertByMinApart(files[1..], f);
      TotalOrder(files[0].minKey, f.minKey, f.minKey);
      assert Apart(f, files[0]);
      LeftOf(files[0], f);
      ConsApart(files[0], InsertByMin(files[1..], f));
    }
  }

  lemma ConsApart(f: File, files: seq<File>)
    requires SortedApart(files) && AtMost(f.minKey, f.maxKey)
    requires forall g | g in files :: Less(f.maxKey, g.minKey)
    ensures SortedApart([f] + files)
  {
    assert forall j | 0 <= j < |files| :: files[j] in files;
  }

  lemma FirstHasLeastMin(files: seq<File>, j: nat)
    requires SortedApart(files) && 0 < j < |files|
    ensures AtMost(files[0].minKey, files[j].minKey)
    ensures forall k: Bytes | AtMost(k, files[0].minKey) :: AtMost(k, files[j].minKey)
  {
    KeyOrder();
    assert files[0] in files;
  }

  lemma LeftOf(f: File, g: File)
    requires AtMost(f.minKey, f.maxKey) && AtMost(g.minKey, g.maxKey) && Apart(f, g)
    requires AtMost(f.minKey, g.minKey)
    ensures Less(f.maxKey, g.minKey)
  {
    KeyOrder();
  }

  lemma {:induction false} SortByMinApart(files: seq<File>)
    requires PairwiseApart(files)
    ensures SortedApart(SortByMin(files))
    ensures forall g :: g in SortByMin(files) <==> g in files
  {
    if files != [] {
      SortByMinApart(files[1..]);
      forall g | g in files[1..]
        ensures Apart(files[0], g)
      {
        var i :| 0 <= i < |files[1..]| && files[1..][i] == g;
        assert files[i + 1] == g;
      }
      InsertByMinApart(SortByMin(files[1..]), files[0]);
    }
  }

  lemma {:induction false} InsertByNumberSorted(files: seq<File>, f: File)
    requires NewestFirst(files)
    requires forall g | g in files :: g.number != f.number
    ensures NewestFirst(InsertByNumber(files, f))
    ensures forall g :: g in InsertByNumber(files, f) <==> g in files || g == f
  {
    if files == [] || f.number >= files[0].number {
      assert forall j | 0 <= j < |files| :: files[j] in files;
    } else {
      InsertByNumberSorted(files[1..], f);
      var rest := InsertByNumber(files[1..], f);
      assert forall j | 0 <= j < |rest| :: rest[j] in rest;
    }
  }

  lemma {:induction false} SortNewestFirstSorted(files: seq<File>)
    requires UniqueNumbers(files)
    ensures NewestFirst(SortNewestFirst(files))
    ensures forall g :: g in SortNewestFirst(files) <==> g in files
  {
    if files != [] {
      SortNewestFirstSorted(files[1..]);
      InsertByNumberSorted(SortNewestFirst(files[1..]), files[0]);
    }
  }

  /** The levels without the inputs of a compaction. */
  function Removed(levels: seq<seq<File>>, numbers: seq<nat>): seq<seq<File>> {
    seq(|levels|, l requires 0 <= l < |levels| => Retain(levels[l], numbers))
  }

  function Deepened(levels: seq<seq<File>>, level: nat): (r: seq<seq<File>>)
    ensures |r| > level && |r| >= |levels|
    ensures forall l | 0 <= l < |r| :: r[l] == if l < |levels| then levels[l] else []
    decreases level + 1 - |levels|
  {
    if |levels| > level then levels else Deepened(levels + [[]], level)
  }

  /** The outputs of a compaction filed into their level in key order. */
  function Inserted(levels: seq<seq<File>>, level: nat, tables: seq<File>): seq<seq<File>> {
    var grown := Deepened(levels, level);
    grown[level := SortByMin(grown[level] + tables)]
  }

  /** The levels as opening a store rebuilds them from the manifest. */
  function Opened(files: seq<File>): seq<seq<File>> {
    seq(DeepestLevel(files) + 1, l requires 0 <= l =>
      if l == 0 then SortNewestFirst(AtLevel(files, 0)) else SortByMin(AtLevel(files, l)))
  }

  lemma {:induction false} RetainKeepsNewest(files: seq<File>, removed: seq<nat>)
    requires NewestFirst(files)
    ensures NewestFirst(Retain(files, removed))
  {
    if files != [] {
      var rest := Retain(files[1..], removed);
      RetainKeepsNewest(files[1..], removed);
      forall j | 0 <= j < |rest|
        ensures files[0].number > rest[j].number
      {
        assert rest[j] in files[1..];
      }
    }
  }

  lemma {:induction false} RetainKeepsSorted(files: seq<File>, removed: seq<nat>)
    requires SortedApart(files)
    ensures SortedApart(Retain(files, removed))
  {
    hide Less;
    if files != [] {
      var rest := Retain(files[1..], removed);
      RetainKeepsSorted(files[1..], removed);
      forall j | 0 <= j < |rest|
        ensures Less(files[0].maxKey, rest[j].minKey)
      {
        assert rest[j] in files[1..];
      }
    }
  }

  lemma RetainKeepsOrder(files: seq<File>, removed: seq<nat>)
    ensures NewestFirst(files) ==> NewestFirst(Retain(files, removed))
    ensures SortedApart(files) ==> SortedApart(Retain(files, removed))
  {
    hide NewestFirst, SortedApart;
    if NewestFirst(files) {
      RetainKeepsNewest(files, removed);
    }
    if SortedApart(files) {
      RetainKeepsSorted(files, removed);
    }
  }

  lemma LayoutRanges(files: seq<File>, f: File)
    requires Layout(files) && f in files
    ensures AtMost(f.minKey, f.maxKey)
  {
    KeyOrder();
    assert f.WellFormed();
    var v :| v in f.content && v.key == f.minKey;
    assert f.Covers(v.key);
  }

  lemma OpenedLevel(files: seq<File>, l: nat)
    requires Layout(files) && 1 <= l
    ensures SortedApart(SortByMin(AtLevel(files, l)))
    ensures forall g :: g in SortByMin(AtLevel(files, l)) <==> g in AtLevel(files, l)
  {
    hide SortedApart;
    var there := AtLevel(files, l);
    AtLevelUnique(files, l);
    forall f | f in there
      ensures AtMost(f.minKey, f.maxKey)
    {
      LayoutRanges(files, f);
    }
    forall i, j | 0 <= i < j < |there|
      ensures Apart(there[i], there[j])
    {
      assert there[i] in files && there[j] in files && there[i] != there[j];
    }
    SortByMinApart(there);
  }

  lemma OpenedFront(files: seq<File>)
    requires Layout(files)
    ensures NewestFirst(SortNewestFirst(AtLevel(files, 0)))
    ensures forall g :: g in SortNewestFirst(AtLevel(files, 0)) <==> g in AtLevel(files, 0)
  {
    hide NewestFirst;
    AtLevelUnique(files, 0);
    SortNewestFirstSorted(AtLevel(files, 0));
  }

  /** Opening a store puts its files back in the search order. */
  lemma OpenedIsOrganized(files: seq<File>)
    requires Layout(files)
    ensures Organized(Opened(files), files)
  {
    hide Layout, SortedApart, NewestFirst, SortByMin, SortNewestFirst, AtLevel;
    var levels := Opened(files);
    OpenedFront(files);
    forall l | 1 <= l < |levels|
      ensures SortedApart(levels[l])
      ensures forall g :: g in levels[l] <==> g in AtLevel(files, l)
    {
      OpenedLevel(files, l);
    }
  }

  /** Publishing a flush puts the new file in front of level 0. */
  lemma FlushKeepsOrganized(levels: seq<seq<File>>, files: seq<File>, f: File)
    requires Organized(levels, files)
    requires f.level == 0 && forall g | g in files && g.level == 0 :: g.number < f.number
    ensures Organized(levels[0 := [f] + levels[0]], files + [f])
  {
    assert forall j | 0 <= j < |levels[0]| :: levels[0][j] in levels[0];
  }

  /** Publishing a compaction drops its inputs and files its outputs in key order. */
  lemma CompactionKeepsOrganized(levels: seq<seq<File>>, files: seq<File>, removed: seq<nat>, level: nat,
                                 outs: seq<File>)
    requires Organized(levels, files)
    requires level > 0 && (forall o | o in outs :: o.level == level) && SortedApart(outs)
    requires Layout(Retain(files, removed) + outs)
    ensures Organized(Inserted(Removed(levels, removed), level, outs), Retain(files, removed) + outs)
  {
    var kept := Retain(files, removed);
    var grown := Deepened(Removed(levels, removed), level);
    RemovedIsOrganized(levels, files, removed, level);
    MixedApart(grown[level], outs, kept + outs, kept);
    SortByMinApart(grown[level] + outs);
    AddedIsOrganized(grown, kept, level, outs);
  }

  lemma RemovedIsOrganized(levels: seq<seq<File>>, files: seq<File>, removed: seq<nat>, level: nat)
    requires Organized(levels, files)
    ensures Organized(Deepened(Removed(levels, removed), level), Retain(files, removed))
  {
    hide NewestFirst, SortedApart, Deepened, Retain;
    var after := Deepened(Removed(levels, removed), level);
    forall l | 0 <= l < |levels|
      ensures NewestFirst(levels[l]) ==> NewestFirst(after[l])
      ensures SortedApart(levels[l]) ==> SortedApart(after[l])
    {
      RetainKeepsOrder(levels[l], removed);
    }
    forall l | |levels| <= l < |after|
      ensures SortedApart(after[l])
    {
      NothingIsApart();
    }
  }

  lemma NothingIsApart()
    ensures SortedApart([])
  {
  }

  lemma AddedIsOrganized(grown: seq<seq<File>>, kept: seq<File>, level: nat, outs: seq<File>)
    requires Organized(grown, kept) && 0 < level < |grown|
    requires forall o | o in outs :: o.level == level
    requires SortedApart(SortByMin(grown[level] + outs))
    requires forall g :: g in SortByMin(grown[level] + outs) <==> g in grown[level] || g in outs
    ensures Organized(grown[level := SortByMin(grown[level] + outs)], kept + outs)
  {
    hide SortByMin, SortedApart, NewestFirst;
    var sorted := SortByMin(grown[level] + outs);
    var after := grown[level := sorted];
    forall l, f: File | 0 <= l < |after| && f in after[l]
      ensures f.level == l && f in kept + outs
    {
      if l == level {
        assert f in sorted;
      }
    }
    forall f: File | f in kept + outs
      ensures f.level < |after| && f in after[f.level]
    {
      if f in kept && f.level == level {
        assert f in grown[level];
      }
    }
  }

  lemma MixedApart(there: seq<File>, outs: seq<File>, after: seq<File>, kept: seq<File>)
    requires Layout(after) && after == kept + outs
    requires SortedApart(there) && SortedApart(outs)
    requires forall f | f in there :: f in kept && f.level > 0
    requires forall f, g | f in there && g in outs :: f.level == g.level
    ensures PairwiseApart(there + outs)
  {
    var all := there + outs;
    forall i, j | 0 <= i < j < |all|
      ensures Apart(all[i], all[j])
    {
      if i < |there| <= j {
        var f, g := all[i], all[j];
        assert f in there && g in outs;
        var a :| 0 <= a < |kept| && kept[a] == f;
        var b :| 0 <= b < |outs| && outs[b] == g;
        assert after[a] == f && after[|kept| + b] == g;
        assert f.number != g.number;
        assert Apart(f, g);
      } else {
        assert Less(all[i].maxKey, all[j].minKey);
      }
    }
  }
}
