/** The in-memory state of an open store, changed in place. */
module EngineState {
  import opened Keys
  import opened Versions
  import opened Files
  import opened Levels

  /** A table that takes no more writes, with the logs its records are in. */
  datatype Frozen = Frozen(table: set<Version>, logs: seq<nat>)

  ghost function Tables(frozen: seq<Frozen>): seq<set<Version>> {
    seq(|frozen|, i requires 0 <= i < |frozen| => frozen[i].table)
  }

  /** Everything a lookup walks, newest first. */
  ghost function Stack(active: set<Version>, frozen: seq<Frozen>, levels: seq<seq<File>>): seq<set<Version>>
    requires |levels| > 0
  {
    [active] + Tables(frozen) + LayersOf(levels)
  }

  ghost predicate ValidTables(active: set<Version>, frozen: seq<Frozen>, levels: seq<seq<File>>) {
    && |levels| > 0 && Searchable(levels)
    && Distinct(Union(Stack(active, frozen, levels)))
    && forall l, f | 0 <= l < |levels| && f in levels[l] :: f.WellFormed()
  }

  /** The lookup every table offers: the newest version of the key it holds. */
  method LookUp(table: set<Version>, key: Bytes) returns (found: Lookup)
    requires Distinct(table)
    ensures found == Shown(Newest(table, key))
  {
    var rest := table;
    var best: Option<Version> := None;
    while rest != {}
      invariant rest <= table
      invariant best == Newest(table - rest, key)
      decreases rest
    {
      var v :| v in rest;
      var seen := table - rest;
      rest := rest - {v};
      assert table - rest == seen + {v};
      assert HasKey(seen, key) ==> HasKey(seen + {v}, key);
      if v.key == key && (best.None? || best.value.seqno < v.seqno) {
        best := Some(v);
        assert HasKey(seen + {v}, key);
      }
      assert best.Some? ==> NewestIn(best.value, seen + {v}) && best.value.seqno == Newest(seen + {v}, key).value.seqno;
    }
    assert table - rest == table;
    found := Shown(best);
  }

  /** A range misses a key on exactly one side, or covers it. */
  lemma Probed(f: File, key: Bytes)
    ensures Less(f.maxKey, key) || Less(key, f.minKey) <==> !f.Covers(key)
  {
    KeyOrder();
  }

  lemma BelowMiddle(level: seq<File>, mid: nat, key: Bytes)
    requires SortedApart(level) && mid < |level| && Less(level[mid].maxKey, key)
    ensures forall i | 0 <= i <= mid :: Less(level[i].maxKey, key)
  {
    KeyOrder();
    assert level[mid] in level;
    forall i | 0 <= i < mid
      ensures Less(level[i].maxKey, key)
    {
      assert Less(level[i].maxKey, level[mid].minKey);
    }
  }

  lemma AboveMiddle(level: seq<File>, mid: nat, key: Bytes)
    requires SortedApart(level) && mid < |level| && Less(key, level[mid].minKey)
    ensures forall i | mid <= i < |level| :: Less(key, level[i].minKey)
  {
    KeyOrder();
    assert level[mid] in level;
    forall i | mid < i < |level|
      ensures Less(key, level[i].minKey)
    {
      assert Less(level[mid].maxKey, level[i].minKey);
    }
  }

  /** The file of a deeper level whose range holds `key`, found by halving. */
  method Covering(level: seq<File>, key: Bytes) returns (found: Option<File>)
    requires SortedApart(level)
    ensures found.Some? ==> found.value in level && found.value.Covers(key)
    ensures found.None? ==> forall f | f in level :: !f.Covers(key)
  {
    var low, high := 0, |level|;
    while low < high
      invariant 0 <= low <= high <= |level|
      invariant forall i | 0 <= i < low :: Less(level[i].maxKey, key)
      invariant forall i | high <= i < |level| :: Less(key, level[i].minKey)
    {
      var mid := (low + high) / 2;
      Probed(level[mid], key);
      if Less(level[mid].maxKey, key) {
        BelowMiddle(level, mid, key);
        low := mid + 1;
      } else if Less(key, level[mid].minKey) {
        AboveMiddle(level, mid, key);
        high := mid;
      } else {
        return Some(level[mid]);
      }
    }
    forall i | 0 <= i < |level|
      ensures !level[i].Covers(key)
    {
      Probed(level[i], key);
    }
    return None;
  }

  method SearchFrozen(frozen: seq<Frozen>, key: Bytes) returns (found: Lookup)
    requires forall i | 0 <= i < |frozen| :: Distinct(frozen[i].table)
    ensures found == Shown(FirstHit(Tables(frozen), key))
  {
    for i := 0 to |frozen|
      invariant FirstHit(Tables(frozen)[..i], key) == None
    {
      OneMore(Tables(frozen), i, key);
      found := LookUp(frozen[i].table, key);
      if !found.Missing? {
        return;
      }
    }
    assert Tables(frozen)[..|frozen|] == Tables(frozen);
    return Missing;
  }

  /** Ranges overlap in level 0: the files are asked one after the other. */
  method SearchLevelZero(files: seq<File>, key: Bytes) returns (found: Lookup)
    requires forall i | 0 <= i < |files| :: Distinct(files[i].content)
    ensures found == Shown(FirstHit(LevelZero(files), key))
  {
    for i := 0 to |files|
      invariant FirstHit(LevelZero(files)[..i], key) == None
    {
      OneMore(LevelZero(files), i, key);
      found := LookUp(files[i].content, key);
      if !found.Missing? {
        return;
      }
    }
    assert LevelZero(files)[..|files|] == LevelZero(files);
    return Missing;
  }

  /** Below level 0 one file per level is asked: the one whose range covers the key. */
  method SearchDeeper(levels: seq<seq<File>>, key: Bytes) returns (found: Lookup)
    requires |levels| > 0 && Searchable(levels)
    requires forall l | 1 <= l < |levels| :: Distinct(Contents(levels[l]))
    requires forall l, f | 1 <= l < |levels| && f in levels[l] :: f.WellFormed()
    ensures found == Shown(FirstHit(Deeper(levels), key))
  {
    hide SortedApart, FirstHit, Newest, Less;
    NothingSearched(Deeper(levels), key);
    for l := 1 to |levels|
      invariant FirstHit(Deeper(levels)[..l - 1], key) == None
    {
      OneMore(Deeper(levels), l - 1, key);
      var table := Covering(levels[l], key);
      CoveringHoldsTheKey(levels[l], key, table);
      if table.Some? {
        found := LookUp(table.value.content, key);
        if !found.Missing? {
          return;
        }
      }
    }
    assert Deeper(levels)[..|levels| - 1] == Deeper(levels);
    return Missing;
  }

  class LiveState {
    var active: set<Version>
    /** Numbers of the logs holding the active table's records. */
    var activeLogs: seq<nat>
    /** Frozen tables without a file so far, the youngest in front. */
    var frozen: seq<Frozen>
    /** Files by level: level 0 newest first, deeper levels sorted by key and never overlapping. */
    var levels: seq<seq<File>>

    ghost predicate Valid()
      reads this
    {
      ValidTables(active, frozen, levels)
    }

    /** The state a store opens with: the files by level, and the replayed logs in one active table. */
    constructor (byLevel: seq<seq<File>>, replayed: set<Version>, logs: seq<nat>)
      requires ValidTables(replayed, [], byLevel)
      ensures Valid()
      ensures active == replayed && activeLogs == logs && frozen == [] && levels == byLevel
    {
      active, activeLogs, frozen, levels := replayed, logs, [], byLevel;
    }

    /** Walks the tables from newest to oldest and stops at the first that answers. */
    method Get(key: Bytes) returns (answer: Option<Bytes>)
      requires Valid()
      ensures answer == Visible(Shown(FirstHit(Stack(active, frozen, levels), key)))
    {
      StackIsDistinct(active, frozen, levels);
      HitsInOrder([active], Tables(frozen) + LayersOf(levels), key);
      HitsInOrder(Tables(frozen), LayersOf(levels), key);
      HitsInOrder(LevelZero(levels[0]), Deeper(levels), key);
      assert Stack(active, frozen, levels) == [active] + (Tables(frozen) + LayersOf(levels));
      var found := LookUp(active, key);
      if found.Missing? {
        found := SearchFrozen(frozen, key);
      }
      if found.Missing? {
        found := SearchLevelZero(levels[0], key);
      }
      if found.Missing? {
        found := SearchDeeper(levels, key);
      }
      return Visible(found);
    }

    /** Freezes the active table under a fresh log. */
    method Freeze(log: nat)
      requires Valid()
      modifies this`active, this`activeLogs, this`frozen
      ensures frozen == [Frozen(old(active), old(activeLogs))] + old(frozen)
      ensures active == {} && activeLogs == [log]
      ensures Valid()
    {
      ghost var before := Stack(active, frozen, levels);
      frozen := [Frozen(active, activeLogs)] + frozen;
      active, activeLogs := {}, [log];
      ghost var after := Stack(active, frozen, levels);
      assert after == [{}] + before;
      UnionSplits(after);
      assert after[1..] == before;
    }

    /** Publishes a flushed table: it comes in front of all files and behind all tables. */
    method PublishFlush(file: File)
      requires Valid() && frozen != []
      requires file.WellFormed() && file.content <= frozen[|frozen| - 1].table
      modifies this`frozen, this`levels
      ensures frozen == old(frozen)[..|old(frozen)| - 1]
      ensures levels == old(levels)[0 := [file] + old(levels)[0]]
      ensures Valid()
    {
      ghost var before := Stack(active, frozen, levels);
      frozen := frozen[..|frozen| - 1];
      levels := levels[0 := [file] + levels[0]];
      ghost var after := Stack(active, frozen, levels);
      SubstituteOne(before, after, |frozen| + 1);
    }

    /** Takes the inputs of a compaction out of every level. */
    method Remove(numbers: seq<nat>)
      requires Valid()
      modifies this`levels
      ensures levels == Removed(old(levels), numbers)
      ensures Valid()
    {
      ghost var was := levels;
      ghost var before := Stack(active, frozen, levels);
      for l := 0 to |levels|
        invariant |levels| == |was|
        invariant forall i | 0 <= i < l :: levels[i] == Retain(was[i], numbers)
        invariant forall i | l <= i < |was| :: levels[i] == was[i]
      {
        levels := levels[l := Retain(levels[l], numbers)];
      }
      assert levels == Removed(was, numbers);
      forall l | 0 <= l < |was| {
        RetainKeepsOrder(was[l], numbers);
      }
      ghost var after := Stack(active, frozen, levels);
      forall v | v in Union(after)
        ensures v in Union(before)
      {
        StackMembers(active, frozen, levels, v);
        StackMembers(active, frozen, was, v);
      }
    }

    /** Files the outputs of a compaction into their level, in key order, as the halving search needs it. */
    method Insert(level: nat, tables: seq<File>)
      modifies this`levels
      ensures levels == Inserted(old(levels), level, tables)
      ensures level < |levels|
      ensures PairwiseApart(Deepened(old(levels), level)[level] + tables) ==> SortedApart(levels[level])
    {
      hide SortByMin, SortedApart, PairwiseApart;
      while |levels| <= level
        invariant Deepened(levels, level) == Deepened(old(levels), level)
        decreases level + 1 - |levels|
      {
        levels := levels + [[]];
      }
      ghost var joined := levels[level] + tables;
      levels := levels[level := SortByMin(levels[level] + tables)];
      if PairwiseApart(joined) {
        SortByMinApart(joined);
      }
    }
  }

  /** Membership in the stack, table by table. */
  lemma StackMembers(active: set<Version>, frozen: seq<Frozen>, levels: seq<seq<File>>, v: Version)
    requires |levels| > 0
    ensures v in Union(Stack(active, frozen, levels)) <==>
      || v in active
      || (exists i :: 0 <= i < |frozen| && v in frozen[i].table)
      || (exists l, f :: 0 <= l < |levels| && f in levels[l] && v in f.content)
  {
    var stack := Stack(active, frozen, levels);
    var n := 1 + |frozen|;
    var m := n + |levels[0]|;
    if v in Union(stack) {
      var i :| 0 <= i < |stack| && v in stack[i];
      if n <= i < m {
        assert levels[0][i - n] in levels[0] && v in levels[0][i - n].content;
      } else if m <= i {
        assert stack[i] == Contents(levels[i - m + 1]);
      }
    }
    if v in active {
      assert v in stack[0];
    }
    if i :| 0 <= i < |frozen| && v in frozen[i].table {
      assert v in stack[1 + i];
    }
    if l, f :| 0 <= l < |levels| && f in levels[l] && v in f.content {
      if l == 0 {
        var i :| 0 <= i < |levels[0]| && levels[0][i] == f;
        assert v in stack[n + i];
      } else {
        assert stack[m + l - 1] == Contents(levels[l]);
        assert v in stack[m + l - 1];
      }
    }
  }

  lemma StackIsDistinct(active: set<Version>, frozen: seq<Frozen>, levels: seq<seq<File>>)
    requires |levels| > 0 && Distinct(Union(Stack(active, frozen, levels)))
    ensures Distinct(active)
    ensures forall i | 0 <= i < |frozen| :: Distinct(frozen[i].table)
    ensures forall i | 0 <= i < |levels[0]| :: Distinct(levels[0][i].content)
    ensures forall l | 1 <= l < |levels| :: Distinct(Contents(levels[l]))
  {
    forall v {
      StackMembers(active, frozen, levels, v);
    }
  }

  lemma OrganizedIsSearchable(levels: seq<seq<File>>, files: seq<File>)
    requires Organized(levels, files) && Layout(files)
    ensures Searchable(levels)
    ensures forall l, f | 0 <= l < |levels| && f in levels[l] :: f.WellFormed()
  {
  }

  lemma OrganizedIsValid(levels: seq<seq<File>>, files: seq<File>, active: set<Version>)
    requires Organized(levels, files) && Layout(files) && Distinct(Contents(files) + active)
    ensures ValidTables(active, [], levels)
  {
    OrganizedIsSearchable(levels, files);
    OrganizedContents(levels, files);
    StackOfTwo(active, levels);
    hide Layout, Searchable, Union, Stack, Contents;
  }

  lemma StackOfTwo(active: set<Version>, levels: seq<seq<File>>)
    requires |levels| > 0
    ensures Union(Stack(active, [], levels)) == active + Union(LayersOf(levels))
  {
    hide Union, LayersOf;
    var stack := Stack(active, [], levels);
    UnionSplits(stack);
    assert stack[1..] == LayersOf(levels);
  }

  /** Searching two stacks one after the other. */
  lemma {:induction false} HitsInOrder(a: seq<set<Version>>, b: seq<set<Version>>, k: Bytes)
    ensures FirstHit(a + b, k) == if FirstHit(a, k).Some? then FirstHit(a, k) else FirstHit(b, k)
  {
    if a == [] {
      assert a + b == b;
    } else {
      assert (a + b)[1..] == a[1..] + b;
      HitsInOrder(a[1..], b, k);
    }
  }

  lemma NothingSearched(layers: seq<set<Version>>, k: Bytes)
    ensures FirstHit(layers[..0], k) == None
  {
  }

  lemma OneMore(layers: seq<set<Version>>, i: nat, k: Bytes)
    requires i < |layers|
    ensures FirstHit(layers[..i], k) == None ==> FirstHit(layers[..i + 1], k) == Newest(layers[i], k)
    ensures FirstHit(layers[..i], k) == None && HasKey(layers[i], k) ==> FirstHit(layers, k) == Newest(layers[i], k)
  {
    assert layers[..i + 1] == layers[..i] + [layers[i]];
    HitsInOrder(layers[..i], [layers[i]], k);
    assert layers == layers[..i + 1] + layers[i + 1..];
    HitsInOrder(layers[..i + 1], layers[i + 1..], k);
  }

  lemma SubstituteOne(before: seq<set<Version>>, after: seq<set<Version>>, at: nat)
    requires |before| == |after| && at < |before|
    requires after[at] <= before[at]
    requires forall i | 0 <= i < |before| && i != at :: after[i] == before[i]
    ensures Union(after) <= Union(before)
  {
  }

  lemma OneFileCovers(level: seq<File>, f: File, g: File, key: Bytes)
    requires SortedApart(level) && f in level && g in level && f.Covers(key) && g.Covers(key)
    ensures f == g
  {
    KeyOrder();
    var i :| 0 <= i < |level| && level[i] == f;
    var j :| 0 <= j < |level| && level[j] == g;
    assert i == j;
  }

  lemma HoldersCover(level: seq<File>, key: Bytes, v: Version) returns (f: File)
    requires (forall g | g in level :: g.WellFormed()) && v in Contents(level) && v.key == key
    ensures f in level && v in f.content && f.Covers(key)
  {
    f :| f in level && v in f.content;
    assert f.WellFormed();
  }

  lemma SameHolders(whole: set<Version>, part: set<Version>, key: Bytes)
    requires Distinct(whole) && part <= whole && forall v | v in whole && v.key == key :: v in part
    ensures Newest(whole, key) == Newest(part, key)
  {
    var a, b := Newest(whole, key), Newest(part, key);
    assert HasKey(part, key) <==> HasKey(whole, key);
    if a.Some? {
      assert a.value in part && b.value in whole;
      assert a.value.seqno == b.value.seqno;
    }
  }

  /** In a level of disjoint files, only the covering file can hold the key. */
  lemma CoveringHoldsTheKey(level: seq<File>, key: Bytes, table: Option<File>)
    requires SortedApart(level) && (forall f | f in level :: f.WellFormed()) && Distinct(Contents(level))
    requires table.Some? ==> table.value in level && table.value.Covers(key)
    requires table.None? ==> forall f | f in level :: !f.Covers(key)
    ensures table.None? ==> !HasKey(Contents(level), key)
    ensures table.Some? ==> Newest(Contents(level), key) == Newest(table.value.content, key)
    ensures table.Some? ==> Distinct(table.value.content)
  {
    hide SortedApart, Newest, Less;
    forall v | v in Contents(level) && v.key == key
      ensures table.Some? && v in table.value.content
    {
      var f := HoldersCover(level, key, v);
      if table.Some? {
        OneFileCovers(level, f, table.value, key);
      }
    }
    if table.Some? {
      SameHolders(Contents(level), table.value.content, key);
    }
  }
}
