/** Compacting until nothing is over its limit: the loop ends, and changes no answer. */
module Compactor {
  import opened Bounds
  import opened Keys
  import opened Versions
  import opened Files
  import opened Compaction
  import opened Merge
  import opened Planner
  import opened Cutting
  import opened Sums

  // ---- Sums over files ----

  ghost function FileSet(files: seq<File>): set<File> {
    set f | f in files
  }

  /** What the entries of a file come to under a weight per entry. */
  ghost function Weigh(w: Version -> nat): File -> nat {
    (f: File) => Sum(f.content, w)
  }

  ghost function One(): Version -> nat {
    (v: Version) => 1
  }

  ghost function Held(files: set<File>): set<Version> {
    set f, v | f in files && v in f.content :: v
  }

  lemma HeldSplits(files: set<File>, f: File)
    requires f in files
    ensures Held(files) == f.content + Held(files - {f})
  {
  }

  lemma {:induction false} HeldAtMost(files: set<File>, w: Version -> nat)
    ensures Sum(Held(files), w) <= Sum(files, Weigh(w))
    decreases |files|
  {
    if files == {} {
      assert Held(files) == {};
    } else {
      var f :| f in files;
      HeldAtMost(files - {f}, w);
      SumWithout(files, Weigh(w), f);
      HeldSplits(files, f);
      SumUnion(f.content, Held(files - {f}), w);
    }
  }

  ghost predicate Disjoint(files: set<File>) {
    forall f, g | f in files && g in files && f != g :: f.content !! g.content
  }

  lemma DisjointSplits(files: set<File>, f: File)
    requires Disjoint(files) && f in files
    ensures Disjoint(files - {f}) && f.content !! Held(files - {f})
  {
  }

  lemma {:induction false} HeldExactly(files: set<File>, w: Version -> nat)
    requires Disjoint(files)
    ensures Sum(Held(files), w) == Sum(files, Weigh(w))
    decreases |files|
  {
    if files == {} {
      assert Held(files) == {};
    } else {
      var f :| f in files;
      DisjointSplits(files, f);
      HeldSplits(files, f);
      hide Disjoint, Held;
      HeldExactly(files - {f}, w);
      SumWithout(files, Weigh(w), f);
      SumDisjoint(f.content, Held(files - {f}), w);
    }
  }

  /** A file is no bigger than its entries weigh. */
  ghost predicate Sized(files: seq<File>, w: Version -> nat) {
    forall f | f in files :: f.bytes <= Sum(f.content, w)
  }

  lemma {:induction false} BytesBounded(files: seq<File>, w: Version -> nat)
    requires UniqueNumbers(files) && Sized(files, w)
    ensures TotalBytes(files) <= Sum(FileSet(files), Weigh(w))
  {
    if files != [] {
      BytesBounded(files[1..], w);
      var f := files[0];
      assert f !in files[1..];
      assert FileSet(files) == {f} + FileSet(files[1..]);
      SumWithout(FileSet(files), Weigh(w), f);
      assert FileSet(files) - {f} == FileSet(files[1..]);
    }
  }

  lemma LevelBounded(files: seq<File>, level: nat, w: Version -> nat)
    requires UniqueNumbers(files) && Sized(files, w)
    ensures BytesAt(files, level) <= Sum(FileSet(files), Weigh(w))
  {
    AtLevelUnique(files, level);
    BytesBounded(AtLevel(files, level), w);
    SumSubset(FileSet(AtLevel(files, level)), FileSet(files), Weigh(w));
  }

  // ---- What one compaction does to the sums ----

  lemma OutsDisjoint(outs: seq<File>, kept: set<Version>, level: nat)
    requires CutInto(outs, kept, level)
    ensures Disjoint(FileSet(outs))
  {
    forall f, g, v | f in outs && g in outs && v in f.content && v in g.content
      ensures f == g
    {
      ShareNothing(outs, kept, level, f, g, v);
    }
  }

  lemma ShareNothing(outs: seq<File>, kept: set<Version>, level: nat, f: File, g: File, v: Version)
    requires CutInto(outs, kept, level) && f in outs && g in outs && v in f.content && v in g.content
    ensures f == g
  {
    var i :| 0 <= i < |outs| && outs[i] == f;
    var j :| 0 <= j < |outs| && outs[j] == g;
    assert f.Covers(v.key) && g.Covers(v.key);
    KeyOrder();
    assert !(i < j) && !(j < i);
  }

  /** The outputs weigh no more than the inputs. */
  lemma OutsWeigh(planned: seq<File>, current: seq<File>, level: nat, outs: seq<File>, w: Version -> nat)
    requires Compacts(planned, current, level, outs)
    ensures Sum(FileSet(outs), Weigh(w)) <= Sum(FileSet(InputsFor(planned, level)), Weigh(w))
  {
    var inputs := InputsFor(planned, level);
    OutsDisjoint(outs, Survivors(planned, inputs, level + 1), level + 1);
    HeldExactly(FileSet(outs), w);
    HeldAtMost(FileSet(inputs), w);
    assert Held(FileSet(outs)) == Contents(outs) && Held(FileSet(inputs)) == Contents(inputs);
    SumSubset(Contents(outs), Contents(inputs), w);
  }

  lemma InputsNumbered(files: seq<File>, inputs: seq<File>)
    requires UniqueNumbers(files) && FileSet(inputs) <= FileSet(files)
    ensures FileSet(Retain(files, Numbers(inputs))) == FileSet(files) - FileSet(inputs)
  {
    forall f | f in files
      ensures f.number in Numbers(inputs) <==> f in inputs
    {
      NumberedToo(inputs, f);
      if f.number in Numbers(inputs) {
        var i :| 0 <= i < |inputs| && Numbers(inputs)[i] == f.number;
        assert inputs[i] in FileSet(inputs);
        SameNumber(files, f, inputs[i]);
      }
    }
  }

  lemma InputsSubset(files: seq<File>, level: nat)
    ensures FileSet(InputsFor(files, level)) <= FileSet(files)
  {
    hide InputsFor;
    forall f | f in InputsFor(files, level)
      ensures f in files
    {
      InputsAreFiles(files, level, f);
    }
  }

  lemma CompactsFacts(files: seq<File>, level: nat, outs: seq<File>)
    requires Compacts(files, files, level, outs)
    ensures UniqueNumbers(files) && FileSet(files) !! FileSet(outs)
    ensures CutInto(outs, Survivors(files, InputsFor(files, level), level + 1), level + 1)
    ensures Layout(files) && UpperInputs(files, level) != []
  {
  }

  /** The files after a compaction: those that stay, and the outputs. */
  lemma ReplacedSet(files: seq<File>, level: nat, outs: seq<File>)
    requires Compacts(files, files, level, outs)
    ensures var inputs := FileSet(InputsFor(files, level));
            && inputs <= FileSet(files) && (FileSet(files) - inputs) !! FileSet(outs)
            && FileSet(Replaced(files, InputsFor(files, level), outs)) == (FileSet(files) - inputs) + FileSet(outs)
  {
    hide Compacts, InputsFor;
    CompactsFacts(files, level, outs);
    InputsSubset(files, level);
    InputsNumbered(files, InputsFor(files, level));
  }

  lemma NumberedToo(files: seq<File>, f: File)
    ensures f in files ==> f.number in Numbers(files)
  {
    if f in files {
      var i :| 0 <= i < |files| && files[i] == f;
      assert Numbers(files)[i] == f.number;
    }
  }

  /** A sum over the files changes by what the outputs and the inputs come to. */
  lemma ReplacedSum(files: seq<File>, level: nat, outs: seq<File>, g: File -> nat)
    requires Compacts(files, files, level, outs)
    ensures Sum(FileSet(Replaced(files, InputsFor(files, level), outs)), g) + Sum(FileSet(InputsFor(files, level)), g)
            == Sum(FileSet(files), g) + Sum(FileSet(outs), g)
  {
    hide Compacts, Replaced, InputsFor;
    ReplacedSet(files, level, outs);
    var inputs := FileSet(InputsFor(files, level));
    SumSubset(inputs, FileSet(files), g);
    SumDisjoint(FileSet(files) - inputs, FileSet(outs), g);
  }

  // ---- The measure ----

  ghost function Mul(a: nat, b: nat): nat {
    a * b
  }

  /** Entries, each weighted by how far it can still sink. */
  ghost function Sinking(depth: nat): File -> nat {
    (f: File) => if f.level <= depth then Sum(f.content, One()) * (depth - f.level) else 0
  }

  ghost predicate Within(files: seq<File>, depth: nat) {
    forall f | f in files :: f.level <= depth
  }

  ghost function Upper(files: seq<File>, level: nat): set<File> {
    FileSet(UpperInputs(files, level))
  }

  lemma SinkAt(f: File, depth: nat)
    ensures f.level <= depth ==> Sinking(depth)(f) == Weigh(One())(f) * (depth - f.level)
  {
  }

  /** What files of one level come to. */
  lemma SinkOfLevel(files: set<File>, level: nat, depth: nat)
    requires level <= depth && forall f | f in files :: f.level == level
    ensures Sum(files, Sinking(depth)) == Mul(Sum(files, Weigh(One())), depth - level)
  {
    forall f | f in files
      ensures Sinking(depth)(f) == Weigh(One())(f) * (depth - level)
    {
      SinkAt(f, depth);
    }
    hide Sinking, Weigh, One;
    SumScales(files, Weigh(One()), Sinking(depth), depth - level);
  }

  lemma InputLevels(files: seq<File>, level: nat)
    ensures Upper(files, level) <= FileSet(InputsFor(files, level))
    ensures forall f | f in Upper(files, level) :: f.level == level
    ensures forall f | f in FileSet(InputsFor(files, level)) - Upper(files, level) :: f.level == level + 1
  {
    forall f | f in InputsFor(files, level)
      ensures f.level == level || f.level == level + 1
      ensures f.level == level ==> f in UpperInputs(files, level)
    {
      InputsAreFiles(files, level, f);
    }
  }

  lemma SplitSinks(inputs: set<File>, upper: set<File>, level: nat, depth: nat)
    requires level < depth && upper <= inputs && Sum(upper, Weigh(One())) >= 1
    requires forall f | f in upper :: f.level == level
    requires forall f | f in inputs - upper :: f.level == level + 1
    ensures Sum(inputs, Sinking(depth)) > Mul(Sum(inputs, Weigh(One())), depth - level - 1)
  {
    hide *;
    var lower := inputs - upper;
    SumSubset(upper, inputs, Sinking(depth));
    SumSubset(upper, inputs, Weigh(One()));
    SinkOfLevel(upper, level, depth);
    SinkOfLevel(lower, level + 1, depth);
    Spread(Sum(inputs, Sinking(depth)), Sum(inputs, Weigh(One())), Sum(upper, Sinking(depth)),
           Sum(lower, Sinking(depth)),
           Sum(upper, Weigh(One())), Sum(lower, Weigh(One())), depth - level);
  }

  lemma InputsSink(files: seq<File>, level: nat, depth: nat)
    requires Layout(files) && level < depth && UpperInputs(files, level) != []
    ensures Sum(FileSet(InputsFor(files, level)), Sinking(depth))
            > Mul(Sum(FileSet(InputsFor(files, level)), Weigh(One())), depth - level - 1)
  {
    hide *;
    UpperHolds(files, level);
    InputLevels(files, level);
    SplitSinks(FileSet(InputsFor(files, level)), Upper(files, level), level, depth);
  }

  lemma Spread(all: nat, weight: nat, su: nat, sl: nat, u: nat, l: nat, k: nat)
    requires all == su + sl && weight == u + l && k > 0 && su == Mul(u, k) && sl == Mul(l, k - 1) && u >= 1
    ensures all > Mul(weight, k - 1)
  {
    assert u * k == u * (k - 1) + u;
    assert (u + l) * (k - 1) == u * (k - 1) + l * (k - 1);
  }

  lemma UpperHolds(files: seq<File>, level: nat)
    requires Layout(files) && UpperInputs(files, level) != []
    ensures Sum(Upper(files, level), Weigh(One())) >= 1
  {
    var f := UpperInputs(files, level)[0];
    assert f in UpperInputs(files, level) && f in files && f.WellFormed();
    var v :| v in f.content;
    SumWithout(f.content, One(), v);
    SumWithout(Upper(files, level), Weigh(One()), f);
  }

  /** Every compaction sinks something. */
  lemma MeasureDrops(files: seq<File>, level: nat, outs: seq<File>, depth: nat)
    requires Compacts(files, files, level, outs) && level < depth
    ensures Sum(FileSet(Replaced(files, InputsFor(files, level), outs)), Sinking(depth))
            < Sum(FileSet(files), Sinking(depth))
  {
    hide *;
    CompactsFacts(files, level, outs);
    OutsAtLevel(outs, Survivors(files, InputsFor(files, level), level + 1), level + 1);
    ReplacedSum(files, level, outs, Sinking(depth));
    OutsWeigh(files, files, level, outs, One());
    SinkOfLevel(FileSet(outs), level + 1, depth);
    InputsSink(files, level, depth);
    Times(Sum(FileSet(Replaced(files, InputsFor(files, level), outs)), Sinking(depth)),
          Sum(FileSet(files), Sinking(depth)),
          Sum(FileSet(InputsFor(files, level)), Sinking(depth)), Sum(FileSet(outs), Sinking(depth)),
          Sum(FileSet(outs), Weigh(One())), Sum(FileSet(InputsFor(files, level)), Weigh(One())), depth - level - 1);
  }

  lemma Times(after: nat, before: nat, inputs: nat, outs: nat, a: nat, b: nat, k: nat)
    requires after + inputs == before + outs && outs == Mul(a, k) && a <= b && inputs > Mul(b, k)
    ensures after < before
  {
    assert a * k <= b * k;
  }

  lemma OutsAtLevel(outs: seq<File>, kept: set<Version>, level: nat)
    requires CutInto(outs, kept, level)
    ensures forall f | f in FileSet(outs) :: f.level == level
  {
  }

  // ---- One compaction ----

  /** Reading a file back gives its entries in key order. */
  ghost predicate ReadsBack(read: File -> seq<Version>) {
    forall f: File | f.WellFormed() :: Ascending(read(f)) && Members(read(f)) == f.content
  }

  /** No finished file is bigger than its entries weigh. */
  ghost predicate Bounded(sizes: Sizes, w: Version -> nat) {
    forall e: seq<Version> | e != [] && Ascending(e) :: sizes.finished(e) <= Sum(Members(e), w)
  }

  function Items(entries: seq<Version>): seq<Item> {
    seq(|entries|, i requires 0 <= i < |entries| => Good(entries[i]))
  }

  lemma {:induction false} ItemsReadable(entries: seq<Version>)
    ensures Readable(Items(entries)) == entries
  {
    if entries != [] {
      ItemsReadable(entries[1..]);
      assert Items(entries)[1..] == Items(entries[1..]);
    }
  }

  function Scans(inputs: seq<File>, read: File -> seq<Version>): seq<seq<Item>> {
    seq(|inputs|, i requires 0 <= i < |inputs| => Items(read(inputs[i])))
  }

  lemma ScansHold(inputs: seq<File>, read: File -> seq<Version>)
    requires ReadsBack(read) && forall f | f in inputs :: f.WellFormed()
    ensures Coming(Scans(inputs, read), map[]) == Contents(inputs) && Clean(Scans(inputs, read))
    ensures forall i | 0 <= i < |Scans(inputs, read)| :: Ascending(Readable(Scans(inputs, read)[i]))
  {
    var sources := Scans(inputs, read);
    forall i | 0 <= i < |inputs|
      ensures Readable(sources[i]) == read(inputs[i]) && Ascending(read(inputs[i]))
              && Members(read(inputs[i])) == inputs[i].content
    {
      ItemsReadable(read(inputs[i]));
      assert inputs[i] in inputs;
    }
    forall v
      ensures v in Coming(sources, map[]) <==> v in Contents(inputs)
    {
      if v in Contents(inputs) {
        var f :| f in inputs && v in f.content;
        var i :| 0 <= i < |inputs| && inputs[i] == f;
        assert v in Members(read(inputs[i]));
        assert v in Readable(sources[i]);
      }
      if v in Coming(sources, map[]) {
        var i :| 0 <= i < |sources| && v in Readable(sources[i]);
        assert v in Members(read(inputs[i])) && inputs[i] in inputs;
      }
    }
  }

  lemma SurvivorsAreKept(files: seq<File>, inputs: seq<File>, level: nat, merged: seq<Version>)
    requires Members(merged) == Reduce(Contents(inputs))
    ensures (set v | v in merged && Kept(files, level, v)) == Survivors(files, inputs, level)
  {
    assert forall v :: v in merged <==> v in Members(merged);
  }

  lemma InputsFit(files: seq<File>, level: nat)
    requires Layout(files) && Distinct(Contents(files))
    ensures forall f | f in InputsFor(files, level) :: f.WellFormed()
    ensures Consistent(Contents(InputsFor(files, level)))
  {
    hide InputsFor;
    forall f | f in InputsFor(files, level)
      ensures f in files && f.WellFormed()
    {
      InputsAreFiles(files, level, f);
    }
    assert Contents(InputsFor(files, level)) <= Contents(files);
  }

  ghost predicate NumberedBelow(files: seq<File>, next: nat) {
    forall f | f in files :: f.number < next
  }

  /** A store between two compactions. */
  ghost predicate Compactable(files: seq<File>, next: nat) {
    Layout(files) && Distinct(Contents(files)) && NumberedBelow(files, next)
  }

  /** Merges the inputs of one level into files of the next. */
  method CompactOnce(files: seq<File>, level: nat, next: nat, c: Config, read: File -> seq<Version>, sizes: Sizes,
                     ghost w: Version -> nat)
      returns (outs: seq<File>, next': nat)
    requires Compactable(files, next) && UpperInputs(files, level) != []
    requires ReadsBack(read) && Bounded(sizes, w)
    ensures Compacts(files, files, level, outs)
    ensures Sized(outs, w) && NumberedBelow(outs, next') && next <= next'
  {
    hide *;
    var inputs := InputsFor(files, level);
    CompactableParts(files, next);
    InputsFit(files, level);
    ScansHold(inputs, read);
    var merged, ok := Merge.Collect(Scans(inputs, read));
    PartAscends(Coming(Scans(inputs, read), map[]), merged);
    ghost var parts;
    outs, next', parts := WriteMerged(files, level + 1, merged, next, c.target, sizes);
    SurvivorsAreKept(files, inputs, level + 1, merged);
    SealedIsCut(outs, parts, level + 1, next, next', sizes, c.target, Survivors(files, inputs, level + 1));
    OutsNumbered(outs, parts, level + 1, next, next', sizes, c.target, w);
    ReadyToReplace(files, level, outs, next);
  }

  lemma CompactableParts(files: seq<File>, next: nat)
    requires Compactable(files, next)
    ensures Layout(files) && Distinct(Contents(files)) && NumberedBelow(files, next)
  {
  }

  lemma PartAscends(all: set<Version>, merged: seq<Version>)
    requires InitialPart(all, merged)
    ensures Ascending(merged)
  {
  }

  lemma OutsNumbered(outs: seq<File>, parts: seq<seq<Version>>, level: nat, first: nat, next: nat, sizes: Sizes,
                     target: nat, w: Version -> nat)
    requires Sealed(outs, parts, level, first, next, sizes, target) && Bounded(sizes, w)
    ensures Sized(outs, w) && NumberedBelow(outs, next) && forall o | o in outs :: first <= o.number
  {
    forall o | o in outs
      ensures o.bytes <= Sum(o.content, w) && first <= o.number < next
    {
      var i :| 0 <= i < |outs| && outs[i] == o;
      assert o.content == Members(parts[i]);
    }
  }

  lemma ReadyToReplace(files: seq<File>, level: nat, outs: seq<File>, next: nat)
    requires Compactable(files, next) && UpperInputs(files, level) != []
    requires CutInto(outs, Survivors(files, InputsFor(files, level), level + 1), level + 1)
    requires forall o | o in outs :: next <= o.number
    ensures Compacts(files, files, level, outs)
  {
  }

  // ---- Until nothing is due ----

  /** What the loop keeps: a sound store no bigger than it was, answering as it did, no deeper than `depth`. */
  ghost predicate Keeps(files: seq<File>, next: nat, w: Version -> nat, depth: nat, history: set<Version>) {
    && Compactable(files, next) && Sized(files, w) && Sum(FileSet(files), Weigh(w)) <= U64_MAX
    && Within(files, depth) && Distinct(history) && StandsFor(Contents(files), history)
  }

  /** A level due has something to compact, and is not the deepest there can be. */
  lemma DueCanSink(files: seq<File>, level: nat, c: Config, w: Version -> nat)
    requires Due(files, level, c) && c.target >= 1 && c.fanout >= 2
    requires UniqueNumbers(files) && Sized(files, w) && Sum(FileSet(files), Weigh(w)) <= U64_MAX
    ensures UpperInputs(files, level) != [] && level < DEEPEST
  {
    if level > 0 {
      BudgetIsPositive(level, c);
      LevelBounded(files, level, w);
      NothingWeighsNothing(files, level);
      if level >= DEEPEST {
        BudgetIsFull(level, c);
      }
    }
  }

  lemma NothingWeighsNothing(files: seq<File>, level: nat)
    ensures AtLevel(files, level) == [] ==> BytesAt(files, level) == 0
  {
  }

  lemma ReplacedKeeps(files: seq<File>, next: nat, w: Version -> nat, depth: nat, history: set<Version>, level: nat,
                      outs: seq<File>, next': nat)
    requires Keeps(files, next, w, depth, history) && Compacts(files, files, level, outs) && level < depth
    requires Sized(outs, w) && NumberedBelow(outs, next') && next <= next'
    ensures Keeps(Replaced(files, InputsFor(files, level), outs), next', w, depth, history)
  {
    hide *;
    KeepsParts(files, next, w, depth, history);
    CompactionKeepsLayout(files, files, level, outs);
    CompactionKeepsAnswers(files, files, level, outs, history);
    InputsAreIn(files, files, level, outs);
    OutsWeigh(files, files, level, outs, w);
    ReplacedSum(files, level, outs, Weigh(w));
    CompactsFacts(files, level, outs);
    OutsAtLevel(outs, Survivors(files, InputsFor(files, level), level + 1), level + 1);
    ReplacedMembers(files, InputsFor(files, level), outs, next, next', w, depth);
    SmallerIsDistinct(Contents(files), Contents(Replaced(files, InputsFor(files, level), outs)));
    KeepsAgain(Replaced(files, InputsFor(files, level), outs), next', w, depth, history);
  }

  lemma KeepsParts(files: seq<File>, next: nat, w: Version -> nat, depth: nat, history: set<Version>)
    requires Keeps(files, next, w, depth, history)
    ensures Layout(files) && Distinct(Contents(files)) && NumberedBelow(files, next) && Sized(files, w)
            && Within(files, depth)
    ensures Sum(FileSet(files), Weigh(w)) <= U64_MAX && Distinct(history) && StandsFor(Contents(files), history)
    ensures Compactable(files, next) && UniqueNumbers(files)
  {
  }

  lemma KeepsAgain(files: seq<File>, next: nat, w: Version -> nat, depth: nat, history: set<Version>)
    requires Layout(files) && Distinct(Contents(files)) && NumberedBelow(files, next) && Sized(files, w)
             && Within(files, depth)
    requires Sum(FileSet(files), Weigh(w)) <= U64_MAX && Distinct(history) && StandsFor(Contents(files), history)
    ensures Keeps(files, next, w, depth, history)
  {
  }

  lemma ReplacedMembers(files: seq<File>, inputs: seq<File>, outs: seq<File>, next: nat, next': nat, w: Version -> nat,
                        depth: nat)
    requires Sized(files, w) && Sized(outs, w) && NumberedBelow(files, next) && NumberedBelow(outs, next')
             && next <= next'
    requires Within(files, depth) && forall f | f in FileSet(outs) :: f.level <= depth
    ensures var after := Replaced(files, inputs, outs);
            Sized(after, w) && NumberedBelow(after, next') && Within(after, depth)
  {
    forall f | f in Replaced(files, inputs, outs)
      ensures f in files || f in FileSet(outs)
    {
    }
  }

  lemma SmallerIsDistinct(all: set<Version>, some: set<Version>)
    requires some <= all && Distinct(all)
    ensures Distinct(some)
  {
  }

  lemma Beginning(files: seq<File>, next: nat, w: Version -> nat, depth: nat)
    requires Compactable(files, next) && Sized(files, w) && Sum(FileSet(files), Weigh(w)) <= U64_MAX
    requires depth >= DeepestLevel(files)
    ensures Keeps(files, next, w, depth, Contents(files))
  {
  }

  lemma SameAnswers(files: seq<File>, next: nat, w: Version -> nat, depth: nat, history: set<Version>)
    requires Keeps(files, next, w, depth, history)
    ensures forall k :: Answer(Contents(files), k) == Answer(history, k)
  {
    forall k
      ensures Answer(Contents(files), k) == Answer(history, k)
    {
      StandsForAnswers(Contents(files), history, k);
    }
  }

  /** Level 0 is under its trigger, if it has one, and every deeper level within its budget. */
  ghost predicate Settled(files: seq<File>, c: Config) {
    && (c.trigger > 0 ==> |AtLevel(files, 0)| < c.trigger)
    && forall level: nat | level > 0 :: BytesAt(files, level) <= Budget(level, c)
  }

  lemma NothingDeeper(files: seq<File>, level: nat)
    ensures AtLevel(files, level) != [] ==> level <= DeepestLevel(files)
  {
    if AtLevel(files, level) != [] {
      assert AtLevel(files, level)[0] in files;
    }
  }

  lemma NothingDue(files: seq<File>, c: Config)
    requires forall level | 0 <= level <= DeepestLevel(files) :: !Due(files, level, c)
    ensures Settled(files, c)
  {
    assert !Due(files, 0, c);
    forall level: nat | level > 0
      ensures BytesAt(files, level) <= Budget(level, c)
    {
      NothingWeighsNothing(files, level);
      NothingDeeper(files, level);
      if level <= DeepestLevel(files) {
        assert !Due(files, level, c);
      }
    }
  }

  /** The compaction loop: one level after the other until none is due. */
  method CompactAll(start: seq<File>, first: nat, c: Config, read: File -> seq<Version>, sizes: Sizes,
                    ghost w: Version -> nat)
      returns (files: seq<File>, next: nat)
    requires Compactable(start, first) && c.target >= 1 && c.fanout >= 2
    requires ReadsBack(read) && Bounded(sizes, w) && Sized(start, w) && Sum(FileSet(start), Weigh(w)) <= U64_MAX
    ensures Settled(files, c) && Compactable(files, next)
    ensures forall k :: Answer(Contents(files), k) == Answer(Contents(start), k)
  {
    hide *;
    files, next := start, first;
    ghost var depth := if DEEPEST < DeepestLevel(start) then DeepestLevel(start) else DEEPEST;
    Beginning(start, first, w, depth);
    var more := true;
    while more
      invariant Keeps(files, next, w, depth, Contents(start)) && depth >= DEEPEST
      invariant !more ==> Settled(files, c)
      decreases more, Sum(FileSet(files), Sinking(depth))
    {
      KeepsParts(files, next, w, depth, Contents(start));
      var chosen := Plan(files, c);
      if chosen.None? {
        NothingDue(files, c);
        more := false;
      } else {
        var level := chosen.value;
        DueCanSink(files, level, c, w);
        var outs, next' := CompactOnce(files, level, next, c, read, sizes, w);
        ReplacedKeeps(files, next, w, depth, Contents(start), level, outs, next');
        MeasureDrops(files, level, outs, depth);
        files, next := Replaced(files, InputsFor(files, level), outs), next';
      }
    }
    KeepsParts(files, next, w, depth, Contents(start));
    SameAnswers(files, next, w, depth, Contents(start));
  }
}
