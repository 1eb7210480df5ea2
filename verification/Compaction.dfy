/** Picking what to compact, and what replacing the picked files keeps. */
module Compaction {
  import opened Keys
  import opened Versions
  import opened Files


  /** Key range covering every file, or the empty keys if there is none. */
  function RangeOf(files: seq<File>): (r: (Bytes, Bytes))
    ensures forall f | f in files :: AtMost(r.0, f.minKey) && AtMost(f.maxKey, r.1)
    ensures files != [] ==> exists f :: f in files && f.minKey == r.0
    ensures files != [] ==> exists f :: f in files && f.maxKey == r.1
  {
    KeyOrder();
    if files == [] then ([], [])
    else if |files| == 1 then (files[0].minKey, files[0].maxKey)
    else
      var (lo, hi) := RangeOf(files[1..]);
      (if Less(files[0].minKey, lo) then files[0].minKey else lo,
       if Less(hi, files[0].maxKey) then files[0].maxKey else hi)
  }

  /** The file waiting longest, which is the lowest numbered. */
  function Oldest(files: seq<File>): (r: File)
    requires files != []
    ensures r in files
    ensures forall f | f in files :: r.number <= f.number
  {
    if |files| == 1 then files[0]
    else
      var r := Oldest(files[1..]);
      if files[0].number <= r.number then files[0] else r
  }

  /** What a compaction of `level` takes from that level. */
  function UpperInputs(files: seq<File>, level: nat): seq<File> {
    var there := AtLevel(files, level);
    if level == 0 || there == [] then there else [Oldest(there)]
  }

  function Overlapping(files: seq<File>, min: Bytes, max: Bytes): (r: seq<File>)
    ensures forall f :: f in r <==> f in files && f.Overlaps(min, max)
  {
    if files == [] then []
    else (if files[0].Overlaps(min, max) then [files[0]] else []) + Overlapping(files[1..], min, max)
  }

  /** Every file a compaction of `level` consumes, from it and from the level below. */
  function InputsFor(files: seq<File>, level: nat): seq<File> {
    var upper := UpperInputs(files, level);
    var (min, max) := RangeOf(upper);
    upper + Overlapping(AtLevel(files, level + 1), min, max)
  }

  predicate TombstoneNeeded(files: seq<File>, outputLevel: nat, key: Bytes) {
    exists f :: f in files && f.level > outputLevel && f.Covers(key)
  }

  /** The merged inputs, less the tombstones nothing deeper could need. */
  ghost function Survivors(files: seq<File>, inputs: seq<File>, outputLevel: nat): set<Version> {
    set v | v in Reduce(Contents(inputs)) && (v.value.Some? || TombstoneNeeded(files, outputLevel, v.key))
  }

  /** `outs` are the files one sorted stream holding `kept` is cut into. */
  ghost predicate CutInto(outs: seq<File>, kept: set<Version>, level: nat) {
    && Contents(outs) == kept
    && UniqueNumbers(outs)
    && (forall f | f in outs :: f.level == level && f.WellFormed())
    && (forall i, j | 0 <= i < j < |outs| :: Less(outs[i].maxKey, outs[j].minKey))
  }

  /** The file set after a compaction of `inputs` into `outs` commits. */
  function Replaced(files: seq<File>, inputs: seq<File>, outs: seq<File>): seq<File> {
    Retain(files, Numbers(inputs)) + outs
  }

  /** What may have happened to the file set since the plan was made: flushes added newer files at level 0. */
  ghost predicate GrownBy(planned: seq<File>, current: seq<File>) {
    && (forall f | f in planned :: f in current)
    && (forall f | f in current && f !in planned ::
          f.level == 0 && forall g | g in planned && g.level == 0 :: g.number < f.number)
  }

  // ---- Disjointness ----

  /** A file of the output level that is not consumed lies wholly to one side of everything that is. */
  lemma OutsideTheHull(files: seq<File>, level: nat, g: File)
    requires Layout(files)
    requires UpperInputs(files, level) != []
    requires g in files && g.level == level + 1 && g !in InputsFor(files, level)
    ensures (forall f | f in InputsFor(files, level) :: Less(g.maxKey, f.minKey))
         || (forall f | f in InputsFor(files, level) :: Less(f.maxKey, g.minKey))
  {
    KeyOrder();
    var upper := UpperInputs(files, level);
    var (min, max) := RangeOf(upper);
    RangesAreOrdered(files, g);
    assert !g.Overlaps(min, max);
    forall f | f in InputsFor(files, level)
      ensures Less(g.maxKey, min) ==> Less(g.maxKey, f.minKey)
      ensures Less(max, g.minKey) ==> Less(f.maxKey, g.minKey)
    {
      RangesAreOrdered(files, f);
      if f in upper {
      } else {
        assert f.Overlaps(min, max) && f.level == g.level && f != g;
        assert Apart(f, g);
      }
    }
  }

  lemma RangesAreOrdered(files: seq<File>, f: File)
    requires Layout(files)
    requires f in files
    ensures Rank(f.minKey) <= Rank(f.maxKey)
  {
    KeyOrder();
    assert f.WellFormed();
    var v :| v in f.content && v.key == f.minKey;
    assert f.Covers(v.key);
  }

  // ---- Replacing the inputs keeps the layout ----

  /** A compaction planned on `planned` and committed against `current`. */
  ghost predicate Compacts(planned: seq<File>, current: seq<File>, level: nat, outs: seq<File>) {
    var inputs := InputsFor(planned, level);
    && Layout(planned) && Layout(current) && Distinct(Contents(current))
    && GrownBy(planned, current)
    && UpperInputs(planned, level) != []
    && CutInto(outs, Survivors(planned, inputs, level + 1), level + 1)
    && (forall o, f | o in outs && f in current :: o.number != f.number)
  }

  lemma InputsAreFiles(files: seq<File>, level: nat, f: File)
    requires f in InputsFor(files, level)
    ensures f in files && (f.level == level || f.level == level + 1)
    ensures f.level == level ==> f in UpperInputs(files, level)
    ensures f.level == level && level > 0 ==> UpperInputs(files, level) == [f]
  {
  }

  /** Every version written out comes from an input and is the newest of its key among them. */
  lemma OutputsComeFromInputs(planned: seq<File>, current: seq<File>, level: nat, outs: seq<File>, o: File, v: Version)
      returns (f: File)
    requires Compacts(planned, current, level, outs)
    requires o in outs && v in o.content
    ensures f in InputsFor(planned, level) && v in f.content
    ensures NewestIn(v, Contents(InputsFor(planned, level)))
  {
    assert v in Contents(outs);
    f :| f in InputsFor(planned, level) && v in f.content;
  }

  /** A file that stays was in the file set and is none of the inputs. */
  lemma Stays(planned: seq<File>, current: seq<File>, level: nat, outs: seq<File>, f: File)
    requires Compacts(planned, current, level, outs)
    requires f in Retain(current, Numbers(InputsFor(planned, level)))
    ensures f in current && f !in InputsFor(planned, level)
    ensures f.level > 0 ==> f in planned
  {
    var inputs := InputsFor(planned, level);
    forall i | 0 <= i < |inputs|
      ensures inputs[i].number in Numbers(inputs)
    {
      assert Numbers(inputs)[i] == inputs[i].number;
    }
  }

  /** Outputs keep clear of every file that stays at their level. */
  lemma OutputsApart(planned: seq<File>, current: seq<File>, level: nat, outs: seq<File>, o: File, g: File)
    requires Compacts(planned, current, level, outs)
    requires o in outs && g in Retain(current, Numbers(InputsFor(planned, level))) && g.level == level + 1
    ensures Apart(o, g)
  {
    KeyOrder();
    Stays(planned, current, level, outs, g);
    OutsideTheHull(planned, level, g);
    var lo :| lo in o.content && lo.key == o.minKey;
    var hi :| hi in o.content && hi.key == o.maxKey;
    var f := OutputsComeFromInputs(planned, current, level, outs, o, lo);
    var h := OutputsComeFromInputs(planned, current, level, outs, o, hi);
    InputsAreFiles(planned, level, f);
    InputsAreFiles(planned, level, h);
    assert f.WellFormed() && h.WellFormed();
    assert f.Covers(lo.key) && h.Covers(hi.key);
  }

  lemma DisjointKeys(files: seq<File>, f: File, g: File, v: Version, w: Version)
    requires Layout(files) && f in files && g in files && f != g && f.level == g.level && f.level > 0
    requires v in f.content && w in g.content
    ensures v.key != w.key
  {
    KeyOrder();
    assert f.WellFormed() && g.WellFormed();
    assert f.Covers(v.key) && g.Covers(w.key);
  }

  /** A file searched before another, or beside it in a deeper level, holds nothing older than it does. */
  lemma Recency(files: seq<File>, g: File, f: File, v: Version, w: Version)
    requires Layout(files) && f in files && g in files && f != g && g.level <= f.level
    requires f.level == 0 ==> g.number > f.number
    requires v in g.content && w in f.content
    ensures v.key == w.key ==> w.seqno <= v.seqno
  {
    if g.level == f.level && f.level > 0 {
      DisjointKeys(files, g, f, v, w);
    } else {
      assert SearchedBefore(g, f);
    }
  }

  /** A file at or above the drained level that is not consumed holds nothing older than an input does. */
  lemma StayingShadowsInput(planned: seq<File>, current: seq<File>, level: nat, outs: seq<File>,
                            f: File, g: File, w: Version, v: Version)
    requires Compacts(planned, current, level, outs)
    requires f in InputsFor(planned, level) && w in f.content
    requires g in Retain(current, Numbers(InputsFor(planned, level))) && g.level <= level && v in g.content
    ensures v.key == w.key ==> w.seqno <= v.seqno
  {
    InputsAreFiles(planned, level, f);
    Stays(planned, current, level, outs, g);
    hide CutInto, Survivors, Retain, Numbers, UniqueNumbers;
    if level == 0 {
      assert g !in planned;
    }
    Recency(current, g, f, v, w);
  }

  /** Files that stay keep their place in the recency order around the outputs. */
  lemma OutputsShadow(planned: seq<File>, current: seq<File>, level: nat, outs: seq<File>, o: File, g: File)
    requires Compacts(planned, current, level, outs)
    requires o in outs && g in Retain(current, Numbers(InputsFor(planned, level)))
    ensures g.level <= level ==> Shadows(g, o)
    ensures g.level > level + 1 ==> Shadows(o, g)
  {
    Stays(planned, current, level, outs, g);
    forall v, w | v in g.content && w in o.content && v.key == w.key
      ensures g.level <= level ==> w.seqno <= v.seqno
      ensures g.level > level + 1 ==> v.seqno <= w.seqno
    {
      var f := OutputsComeFromInputs(planned, current, level, outs, o, w);
      InputsAreFiles(planned, level, f);
      if g.level <= level {
        StayingShadowsInput(planned, current, level, outs, f, g, w, v);
      } else if g.level > level + 1 {
        Recency(current, f, g, w, v);
      }
    }
  }

  lemma ReplacedUnique(planned: seq<File>, current: seq<File>, level: nat, outs: seq<File>)
    requires Compacts(planned, current, level, outs)
    ensures UniqueNumbers(Replaced(current, InputsFor(planned, level), outs))
  {
    hide Layout, InputsFor, Survivors, GrownBy, UpperInputs, Contents;
    LayoutUnique(current);
    var inputs := InputsFor(planned, level);
    var kept := Retain(current, Numbers(inputs));
    var after := Replaced(current, inputs, outs);
    RetainUnique(current, Numbers(inputs));
    forall i, j | 0 <= i < j < |after|
      ensures after[i].number != after[j].number
    {
      if i < |kept| && j >= |kept| {
        assert after[i] in current && after[j] in outs;
      }
    }
  }

  lemma LayoutUnique(files: seq<File>)
    requires Layout(files)
    ensures UniqueNumbers(files)
  {
  }

  lemma ReplacedApart(planned: seq<File>, current: seq<File>, level: nat, outs: seq<File>, f: File, g: File)
    requires Compacts(planned, current, level, outs)
    requires var after := Replaced(current, InputsFor(planned, level), outs); f in after && g in after
    requires f != g && f.level == g.level && f.level > 0
    ensures Apart(f, g)
  {
    hide Apart, InputsFor;
    if f in outs && g in outs {
      var i :| 0 <= i < |outs| && outs[i] == f;
      var j :| 0 <= j < |outs| && outs[j] == g;
      CutApart(outs, Survivors(planned, InputsFor(planned, level), level + 1), level + 1, i, j);
    } else if f in outs {
      OutputsApart(planned, current, level, outs, f, g);
    } else if g in outs {
      OutputsApart(planned, current, level, outs, g, f);
      ApartBothWays(f, g);
    }
  }

  lemma ApartBothWays(f: File, g: File)
    requires Apart(g, f)
    ensures Apart(f, g)
  {
  }

  lemma CutApart(outs: seq<File>, survivors: set<Version>, level: nat, i: nat, j: nat)
    requires CutInto(outs, survivors, level) && i < |outs| && j < |outs| && i != j
    ensures Apart(outs[i], outs[j])
  {
    if i < j {} else {}
  }

  lemma ReplacedShadows(planned: seq<File>, current: seq<File>, level: nat, outs: seq<File>, f: File, g: File)
    requires Compacts(planned, current, level, outs)
    requires var after := Replaced(current, InputsFor(planned, level), outs); f in after && g in after
    requires SearchedBefore(f, g)
    ensures Shadows(f, g)
  {
    hide Shadows, InputsFor;
    if f in outs && g !in outs {
      OutputsShadow(planned, current, level, outs, f, g);
    } else if f !in outs && g in outs {
      OutputsShadow(planned, current, level, outs, g, f);
    }
  }

  /** Whatever was flushed in between, committing the outputs leaves a well laid out file set. */
  lemma CompactionKeepsLayout(planned: seq<File>, current: seq<File>, level: nat, outs: seq<File>)
    requires Compacts(planned, current, level, outs)
    ensures Layout(Replaced(current, InputsFor(planned, level), outs))
  {
    hide Apart, Shadows, InputsFor, UniqueNumbers, SearchedBefore;
    var after := Replaced(current, InputsFor(planned, level), outs);
    ReplacedUnique(planned, current, level, outs);
    forall f, g | f in after && g in after && f != g && f.level == g.level && f.level > 0
      ensures Apart(f, g)
    {
      ReplacedApart(planned, current, level, outs, f, g);
    }
    forall f, g | f in after && g in after && SearchedBefore(f, g)
      ensures Shadows(f, g)
    {
      ReplacedShadows(planned, current, level, outs, f, g);
    }
  }

  // ---- Replacing the inputs keeps every answer ----

  /** A tombstone dropped from the outputs shadows nothing in any file that stays. */
  lemma DroppedTombstoneUncoversNothing(planned: seq<File>, current: seq<File>, level: nat, outs: seq<File>,
                                        t: Version, g: File, w: Version)
    requires Compacts(planned, current, level, outs)
    requires t in Reduce(Contents(InputsFor(planned, level))) && t !in Contents(outs)
    requires g in Retain(current, Numbers(InputsFor(planned, level))) && w in g.content && w.key == t.key
    ensures t.value.None? && t.seqno <= w.seqno
  {
    var inputs := InputsFor(planned, level);
    assert t !in Survivors(planned, inputs, level + 1);
    assert !TombstoneNeeded(planned, level + 1, t.key);
    var f :| f in inputs && t in f.content;
    InputsAreFiles(planned, level, f);
    Stays(planned, current, level, outs, g);
    assert g.WellFormed() && f.WellFormed();
    assert g.Covers(w.key) && f.Covers(t.key);
    BesideTheHull(planned, level, g, f, t.key);
    assert g.level <= level;
    StayingShadowsInput(planned, current, level, outs, f, g, t, w);
  }

  /** A file of the output level that is not consumed covers no key an input covers. */
  lemma BesideTheHull(files: seq<File>, level: nat, g: File, f: File, key: Bytes)
    requires Layout(files) && UpperInputs(files, level) != []
    requires f in InputsFor(files, level) && f.Covers(key) && g !in InputsFor(files, level)
    ensures g in files && g.level == level + 1 ==> !g.Covers(key)
  {
    KeyOrder();
    if g in files && g.level == level + 1 {
      OutsideTheHull(files, level, g);
    }
  }

  /** An output holds one version of a key: the newest of the inputs. */
  lemma OutputIsNewestInput(planned: seq<File>, current: seq<File>, level: nat, outs: seq<File>, o: File, w: Version,
                            v: Version)
    requires Compacts(planned, current, level, outs)
    requires o in outs && w in o.content && w.key == v.key
    requires v in Contents(current) && v in Contents(InputsFor(planned, level))
             && NewestIn(v, Contents(InputsFor(planned, level)))
    ensures w == v
  {
    var f := OutputsComeFromInputs(planned, current, level, outs, o, w);
    InputsAreIn(planned, current, level, outs);
    assert w in Contents(InputsFor(planned, level)) && w.seqno == v.seqno;
  }

  /** The newest version of every key is still there, unless it was a tombstone with nothing left to hide. */
  lemma NewestSurvives(planned: seq<File>, current: seq<File>, level: nat, outs: seq<File>, v: Version)
    requires Compacts(planned, current, level, outs)
    requires v in Contents(current) && NewestIn(v, Contents(current))
    ensures var after := Contents(Replaced(current, InputsFor(planned, level), outs));
            v in after || (v.value.None? && !HasKey(after, v.key))
  {
    var inputs := InputsFor(planned, level);
    var kept := Retain(current, Numbers(inputs));
    var after := Replaced(current, inputs, outs);
    var f :| f in current && v in f.content;
    if f in kept {
      assert f in after;
    } else {
      RemovedIsInput(planned, current, level, outs, f);
      InputsAreIn(planned, current, level, outs);
      assert v in Contents(inputs) && NewestIn(v, Contents(inputs));
      if v in Contents(outs) {
        var o :| o in outs && v in o.content;
        assert o in after;
      } else if HasKey(Contents(after), v.key) {
        var w :| w in Contents(after) && w.key == v.key;
        var g :| g in after && w in g.content;
        if g in outs {
          OutputIsNewestInput(planned, current, level, outs, g, w, v);
        } else {
          DroppedTombstoneUncoversNothing(planned, current, level, outs, v, g, w);
          assert w in Contents(current) && w == v;
        }
      } else {
        assert v.value.None?;
      }
    }
  }

  lemma RemovedIsInput(planned: seq<File>, current: seq<File>, level: nat, outs: seq<File>, f: File)
    requires Compacts(planned, current, level, outs)
    requires f in current && f !in Retain(current, Numbers(InputsFor(planned, level)))
    ensures f in InputsFor(planned, level)
  {
    var inputs := InputsFor(planned, level);
    var i :| 0 <= i < |inputs| && Numbers(inputs)[i] == f.number;
    InputsAreFiles(planned, level, inputs[i]);
    SameNumber(current, f, inputs[i]);
  }

  lemma InputsAreIn(planned: seq<File>, current: seq<File>, level: nat, outs: seq<File>)
    requires Compacts(planned, current, level, outs)
    ensures Contents(InputsFor(planned, level)) <= Contents(current)
    ensures Contents(Replaced(current, InputsFor(planned, level), outs)) <= Contents(current)
  {
    var inputs := InputsFor(planned, level);
    forall v | v in Contents(inputs)
      ensures v in Contents(current)
    {
      var f :| f in inputs && v in f.content;
      InputsAreFiles(planned, level, f);
      assert f in current;
    }
    forall v | v in Contents(Replaced(current, inputs, outs))
      ensures v in Contents(current)
    {
      var f :| f in Replaced(current, inputs, outs) && v in f.content;
      if f in outs {
        var g := OutputsComeFromInputs(planned, current, level, outs, f, v);
        assert v in Contents(inputs);
      } else {
        assert f in current;
      }
    }
  }

  /** Whatever history the files answered for, they still answer for it after the compaction commits. */
  lemma CompactionKeepsAnswers(planned: seq<File>, current: seq<File>, level: nat, outs: seq<File>,
                               history: set<Version>)
    requires Compacts(planned, current, level, outs)
    requires Distinct(history) && StandsFor(Contents(current), history)
    ensures StandsFor(Contents(Replaced(current, InputsFor(planned, level), outs)), history)
  {
    var after := Contents(Replaced(current, InputsFor(planned, level), outs));
    InputsAreIn(planned, current, level, outs);
    forall v | v in history && NewestIn(v, history)
      ensures v in after || (v.value.None? && !HasKey(after, v.key))
    {
      if v in Contents(current) {
        NewestSurvives(planned, current, level, outs, v);
      } else {
        assert forall w | w in after :: w in Contents(current);
      }
    }
  }
}
