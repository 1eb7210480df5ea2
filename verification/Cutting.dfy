/** Writing a merged stream back as files of a bounded size. */
module Cutting {
  import opened Keys
  import opened Versions
  import opened Files
  import opened Compaction
  import opened Merge

  /** How big a file gets: the bytes written once some entries are in, and the size of the finished file. */
  datatype Sizes = Sizes(written: seq<Version> -> nat, finished: seq<Version> -> nat)

  function FileOf(number: nat, level: nat, entries: seq<Version>, sizes: Sizes): File
    requires entries != []
  {
    File(number, level, entries[0].key, entries[|entries| - 1].key, sizes.finished(entries), Members(entries))
  }

  lemma AscendingIsWellFormed(number: nat, level: nat, entries: seq<Version>, sizes: Sizes)
    requires entries != [] && Ascending(entries)
    ensures FileOf(number, level, entries, sizes).WellFormed()
  {
    KeyOrder();
    var f := FileOf(number, level, entries, sizes);
    var last := |entries| - 1;
    assert entries[0] in f.content && entries[last] in f.content;
    forall v | v in f.content
      ensures f.Covers(v.key)
    {
      var i :| 0 <= i < |entries| && entries[i] == v;
      assert i > 0 ==> Less(entries[0].key, entries[i].key);
      assert i < last ==> Less(entries[i].key, entries[last].key);
    }
    forall v, w | v in f.content && w in f.content && v.key == w.key
      ensures v == w
    {
      var i :| 0 <= i < |entries| && entries[i] == v;
      var j :| 0 <= j < |entries| && entries[j] == w;
      KeysDiffer(entries, i, j);
    }
  }

  predicate Kept(files: seq<File>, outputLevel: nat, v: Version) {
    v.value.Some? || TombstoneNeeded(files, outputLevel, v.key)
  }

  /** Cut right after the entry that reached the target, or where the stream ended. */
  ghost predicate CutRight(f: File, entries: seq<Version>, sizes: Sizes, target: nat, last: bool) {
    && entries != [] && Ascending(entries) && f.content == Members(entries) && f.bytes == sizes.finished(entries)
    && (last || sizes.written(entries) >= target)
    && (|entries| > 1 ==> sizes.written(entries[..|entries| - 1]) < target)
  }

  /** The files finished so far, below everything still to come. */
  ghost predicate Sealed(outs: seq<File>, parts: seq<seq<Version>>, level: nat, first: nat, next: nat, sizes: Sizes,
                         target: nat) {
    && |parts| == |outs|
    && (forall i | 0 <= i < |outs| ::
          && parts[i] != [] && Ascending(parts[i]) && first <= outs[i].number < next
          && outs[i] == FileOf(outs[i].number, level, parts[i], sizes))
    && (forall i | 0 <= i < |outs| :: CutRight(outs[i], parts[i], sizes, target, i == |outs| - 1))
    && (forall i, j | 0 <= i < j < |outs| :: outs[i].number < outs[j].number && Less(outs[i].maxKey, outs[j].minKey))
  }

  ghost predicate AllFilled(outs: seq<File>, parts: seq<seq<Version>>, sizes: Sizes, target: nat) {
    |parts| == |outs| && forall i | 0 <= i < |outs| :: sizes.written(parts[i]) >= target
  }

  ghost predicate Below(outs: seq<File>, later: seq<Version>) {
    forall i, j | 0 <= i < |outs| && 0 <= j < |later| :: Less(outs[i].maxKey, later[j].key)
  }

  lemma SealOne(outs: seq<File>, parts: seq<seq<Version>>, level: nat, first: nat, next: nat, sizes: Sizes, target: nat,
                number: nat, entries: seq<Version>)
    requires Sealed(outs, parts, level, first, number, sizes, target) && AllFilled(outs, parts, sizes, target)
    requires entries != [] && Ascending(entries) && Below(outs, entries) && first <= number < next
    requires |entries| > 1 ==> sizes.written(entries[..|entries| - 1]) < target
    ensures Sealed(outs + [FileOf(number, level, entries, sizes)], parts + [entries], level, first, next, sizes, target)
    ensures sizes.written(entries) >= target ==> AllFilled(outs + [FileOf(number, level, entries, sizes)],
                                                           parts + [entries], sizes, target)
    ensures Contents(outs + [FileOf(number, level, entries, sizes)]) == Contents(outs) + Members(entries)
  {
    var f := FileOf(number, level, entries, sizes);
    var after := outs + [f];
    forall v | v in Contents(outs) + Members(entries)
      ensures v in Contents(after)
    {
      if v in Contents(outs) {
        var g :| g in outs && v in g.content;
        assert g in after;
      } else {
        assert f in after;
      }
    }
  }

  lemma SealedBelow(outs: seq<File>, f: File, entries: seq<Version>, later: seq<Version>)
    requires Below(outs, later) && entries != [] && f.maxKey == entries[|entries| - 1].key && Ascending(entries + later)
    ensures Below(outs + [f], later)
  {
    forall j | 0 <= j < |later|
      ensures Less(f.maxKey, later[j].key)
    {
      assert (entries + later)[|entries| - 1] == entries[|entries| - 1] && (entries + later)[|entries| + j] == later[j];
    }
  }

  lemma SealedIsCut(outs: seq<File>, parts: seq<seq<Version>>, level: nat, first: nat, next: nat, sizes: Sizes,
                    target: nat, kept: set<Version>)
    requires Sealed(outs, parts, level, first, next, sizes, target) && Contents(outs) == kept
    ensures CutInto(outs, kept, level)
  {
    forall f | f in outs
      ensures f.level == level && f.WellFormed()
    {
      var i :| 0 <= i < |outs| && outs[i] == f;
      AscendingIsWellFormed(f.number, level, parts[i], sizes);
    }
  }

  /** Where the writing stands before entry `i`: finished files, and the entries of the open one. */
  ghost predicate Writing(planned: seq<File>, level: nat, merged: seq<Version>, i: nat, first: nat, target: nat,
                          sizes: Sizes,
                          outs: seq<File>, parts: seq<seq<Version>>, next: nat, number: nat, open: seq<Version>) {
    && i <= |merged| && first <= next && (open != [] ==> first <= number < next)
    && Sealed(outs, parts, level, first, if open == [] then next else number, sizes, target)
    && AllFilled(outs, parts, sizes, target)
    && Ascending(open + merged[i..]) && Below(outs, open + merged[i..])
    && (open != [] ==> sizes.written(open) < target)
    && (|open| > 1 ==> sizes.written(open[..|open| - 1]) < target)
    && Contents(outs) + Members(open) == set v | v in merged[..i] && Kept(planned, level, v)
  }

  lemma Starts(planned: seq<File>, level: nat, merged: seq<Version>, first: nat, target: nat, sizes: Sizes)
    requires Ascending(merged)
    ensures Writing(planned, level, merged, 0, first, target, sizes, [], [], first, first, [])
  {
    assert [] + merged[0..] == merged && merged[..0] == [];
  }

  lemma Skips(planned: seq<File>, level: nat, merged: seq<Version>, i: nat, first: nat, target: nat, sizes: Sizes,
              outs: seq<File>, parts: seq<seq<Version>>, next: nat, number: nat, open: seq<Version>)
    requires Writing(planned, level, merged, i, first, target, sizes, outs, parts, next, number, open)
    requires i < |merged| && !Kept(planned, level, merged[i])
    ensures Writing(planned, level, merged, i + 1, first, target, sizes, outs, parts, next, number, open)
  {
    hide Sealed, AllFilled, Below, Ascending, Kept, Contents;
    TakeNext(outs, open, merged, i);
    OneMoreKept(planned, level, merged, i);
  }

  lemma Adds(planned: seq<File>, level: nat, merged: seq<Version>, i: nat, first: nat, target: nat, sizes: Sizes,
             outs: seq<File>, parts: seq<seq<Version>>, next: nat, number: nat, open: seq<Version>, next': nat,
                 number': nat)
    requires Writing(planned, level, merged, i, first, target, sizes, outs, parts, next, number, open)
    requires i < |merged| && Kept(planned, level, merged[i])
    requires if open == [] then number' == next && next' == next + 1 else number' == number && next' == next
    requires sizes.written(open + [merged[i]]) < target
    ensures Writing(planned, level, merged, i + 1, first, target, sizes, outs, parts, next', number',
                    open + [merged[i]])
  {
    hide Sealed, AllFilled, Below, Ascending, Kept, Contents;
    TakeNext(outs, open, merged, i);
    OneMoreKept(planned, level, merged, i);
    var entries := open + [merged[i]];
    assert Members(entries) == Members(open) + {merged[i]} && entries[..|entries| - 1] == open;
  }

  lemma AddsAndSeals(planned: seq<File>, level: nat, merged: seq<Version>, i: nat, first: nat, target: nat,
                     sizes: Sizes,
                     outs: seq<File>, parts: seq<seq<Version>>, next: nat, number: nat, open: seq<Version>, next': nat,
                         number': nat)
    requires Writing(planned, level, merged, i, first, target, sizes, outs, parts, next, number, open)
    requires i < |merged| && Kept(planned, level, merged[i])
    requires if open == [] then number' == next && next' == next + 1 else number' == number && next' == next
    requires sizes.written(open + [merged[i]]) >= target
    ensures var entries := open + [merged[i]];
            Writing(planned, level, merged, i + 1, first, target, sizes,
                    outs + [FileOf(number', level, entries, sizes)], parts + [entries], next', number', [])
  {
    hide Sealed, AllFilled, Below, Ascending, Kept, Contents, FileOf;
    TakeNext(outs, open, merged, i);
    OneMoreKept(planned, level, merged, i);
    var entries := open + [merged[i]];
    assert Members(entries) == Members(open) + {merged[i]} && entries[..|entries| - 1] == open;
    SealOne(outs, parts, level, first, next', sizes, target, number', entries);
    LastKey(number', level, entries, sizes);
    SealedBelow(outs, FileOf(number', level, entries, sizes), entries, merged[i + 1..]);
    assert [] + merged[i + 1..] == merged[i + 1..];
  }

  lemma Ends(planned: seq<File>, level: nat, merged: seq<Version>, first: nat, target: nat, sizes: Sizes,
             outs: seq<File>, parts: seq<seq<Version>>, next: nat, number: nat, open: seq<Version>)
    requires Writing(planned, level, merged, |merged|, first, target, sizes, outs, parts, next, number, open)
    ensures var outs', parts' := if open == [] then outs else outs + [FileOf(number, level, open, sizes)],
            if open == [] then parts else parts + [open];
            && first <= next && Sealed(outs', parts', level, first, next, sizes, target)
            && Contents(outs') == set v | v in merged && Kept(planned, level, v)
  {
    hide Sealed, AllFilled, Below, Ascending, Kept, Contents, FileOf;
    assert merged[..|merged|] == merged && open + merged[|merged|..] == open;
    if open != [] {
      SealOne(outs, parts, level, first, next, sizes, target, number, open);
    }
  }

  /** Drops the tombstones nothing deeper needs, and starts a new file whenever one reaches the target. */
  method WriteMerged(planned: seq<File>, level: nat, merged: seq<Version>, first: nat, target: nat, sizes: Sizes)
      returns (outs: seq<File>, next: nat, ghost parts: seq<seq<Version>>)
    requires Ascending(merged)
    ensures first <= next && Sealed(outs, parts, level, first, next, sizes, target)
    ensures Contents(outs) == set v | v in merged && Kept(planned, level, v)
  {
    hide Writing, Sealed, Ascending, Kept, Contents, FileOf;
    outs := [];
    next := first;
    parts := [];
    var open: seq<Version> := [];
    var number := first;
    Starts(planned, level, merged, first, target, sizes);
    for i := 0 to |merged|
      invariant Writing(planned, level, merged, i, first, target, sizes, outs, parts, next, number, open)
    {
      var entry := merged[i];
      if Kept(planned, level, entry) {
        ghost var next0, number0, open0 := next, number, open;
        if open == [] {
          number := next;
          next := next + 1;
        }
        open := open + [entry];
        if sizes.written(open) >= target {
          AddsAndSeals(planned, level, merged, i, first, target, sizes, outs, parts, next0, number0, open0, next,
                       number);
          outs := outs + [FileOf(number, level, open, sizes)];
          parts := parts + [open];
          open := [];
        } else {
          Adds(planned, level, merged, i, first, target, sizes, outs, parts, next0, number0, open0, next, number);
        }
      } else {
        Skips(planned, level, merged, i, first, target, sizes, outs, parts, next, number, open);
      }
    }
    Ends(planned, level, merged, first, target, sizes, outs, parts, next, number, open);
    if open != [] {
      outs := outs + [FileOf(number, level, open, sizes)];
      parts := parts + [open];
    }
  }

  lemma LastKey(number: nat, level: nat, entries: seq<Version>, sizes: Sizes)
    requires entries != []
    ensures FileOf(number, level, entries, sizes).maxKey == entries[|entries| - 1].key
  {
  }

  lemma TakeNext(outs: seq<File>, open: seq<Version>, merged: seq<Version>, i: nat)
    requires i < |merged| && Ascending(open + merged[i..]) && Below(outs, open + merged[i..])
    ensures Ascending(open + merged[i + 1..]) && Below(outs, open + merged[i + 1..])
    ensures Ascending(open + [merged[i]] + merged[i + 1..]) && Below(outs, open + [merged[i]] + merged[i + 1..])
    ensures Ascending(open + [merged[i]]) && Below(outs, open + [merged[i]]) && Below(outs, merged[i + 1..])
    ensures Ascending(merged[i + 1..])
  {
    assert open + merged[i..] == open + [merged[i]] + merged[i + 1..];
    Apart3(outs, open, merged[i], merged[i + 1..]);
  }

  /** What holds along a sequence holds along the parts of it. */
  lemma Apart3(outs: seq<File>, a: seq<Version>, x: Version, b: seq<Version>)
    requires Ascending(a + [x] + b) && Below(outs, a + [x] + b)
    ensures Ascending(a + b) && Below(outs, a + b)
    ensures Ascending(a + [x]) && Below(outs, a + [x])
    ensures Ascending(b) && Below(outs, b)
  {
    var all := a + [x] + b;
    forall i | 0 <= i < |a + b|
      ensures (a + b)[i] == all[if i < |a| then i else i + 1]
    {
    }
    assert forall i | 0 <= i < |a + [x]| :: (a + [x])[i] == all[i];
    forall i | 0 <= i < |b|
      ensures b[i] == all[i + |a| + 1]
    {
    }
  }

  lemma OneMoreKept(planned: seq<File>, level: nat, merged: seq<Version>, i: nat)
    requires i < |merged|
    ensures (set v | v in merged[..i + 1] && Kept(planned, level, v))
            == (set v | v in merged[..i] && Kept(planned, level, v))
                + (if Kept(planned, level, merged[i]) then {merged[i]} else {})
  {
    assert merged[..i + 1] == merged[..i] + [merged[i]];
  }
}
