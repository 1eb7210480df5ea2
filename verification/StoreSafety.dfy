/** What the store promises over every run. */
module StoreSafety {
  import opened Keys
  import opened Versions
  import opened Files
  import opened Levels
  import opened EngineState
  import opened Store
  import opened StoreInvariant
  import opened StoreFlush
  import opened StoreCompact
  import opened StoreCrash

  lemma StepKeeps(s: State, t: State, step: Step)
    requires Inv(s) && Takes(s, t, step)
    ensures Inv(t)
  {
    hide Inv, Append, Sync, Insert, RotateCreate, RotateSwap, FlushStart, FlushRename, FlushStamp, FlushCommit,
        FlushPublish,
         FlushUnlink, FlushDone, CompactPlan, CompactOpen, CompactSeal, CompactStamp, CompactCommit, CompactPublish,
         CompactUnlink, CompactDone, Crash, Scan, DropPartial, DropOrphan, Finish;
    match step {
      case DoAppend(v) => AppendKeeps(s, t, v);
      case DoSync(count) => SyncKeeps(s, t, count);
      case DoInsert(v) => InsertKeeps(s, t, v);
      case DoRotateCreate => RotateCreateKeeps(s, t);
      case DoRotateSwap => RotateSwapKeeps(s, t);
      case DoFlushStart => FlushStartKeeps(s, t);
      case DoFlushRename(file) => FlushRenameKeeps(s, t, file);
      case DoFlushStamp => FlushStampKeeps(s, t);
      case DoFlushCommit => FlushCommitKeeps(s, t);
      case DoFlushPublish => FlushPublishKeeps(s, t);
      case DoFlushUnlink => FlushUnlinkKeeps(s, t);
      case DoFlushDone => FlushDoneKeeps(s, t);
      case DoCompactPlan(level) => CompactPlanKeeps(s, t, level);
      case DoCompactOpen => CompactOpenKeeps(s, t);
      case DoCompactSeal(file) => CompactSealKeeps(s, t, file);
      case DoCompactStamp => CompactStampKeeps(s, t);
      case DoCompactCommit => CompactCommitKeeps(s, t);
      case DoCompactPublish => CompactPublishKeeps(s, t);
      case DoCompactUnlink => CompactUnlinkKeeps(s, t);
      case DoCompactDone => CompactDoneKeeps(s, t);
      case DoCrash => CrashKeeps(s, t);
      case DoScan(scanned) => ScanKeeps(s, t, scanned);
      case DoDropPartial(n) => DropPartialKeeps(s, t, n);
      case DoDropOrphan(n) => DropOrphanKeeps(s, t, n);
      case DoFinish(numbers, lastSeq) => FinishKeeps(s, t, numbers, lastSeq);
    }
  }

  lemma InitialHolds()
    ensures Inv(Initial())
  {
    assert Contents([]) == {};
  }

  /** The invariant holds in every state of every run, however the steps interleave and wherever it crashes. */
  lemma {:induction false} RunHolds(states: seq<State>, steps: seq<Step>, i: nat)
    requires Run(states, steps) && i < |states|
    ensures Inv(states[i])
  {
    hide Inv, Takes;
    if i == 0 {
      InitialHolds();
    } else {
      RunHolds(states, steps, i - 1);
      StepKeeps(states[i - 1], states[i], steps[i - 1]);
    }
  }

  // ---- Reads refine one map ----

  /** What a lookup in an open store returns. */
  ghost function Read(mem: Memory, k: Bytes): Option<Bytes>
    requires |mem.levels| > 0
  {
    Visible(Shown(FirstHit(Stack(mem.active, mem.frozen, mem.levels), k)))
  }

  /** The writes that have become visible. */
  ghost function Applied(s: State): set<Version>
    requires s.Up?
  {
    s.trace.history - s.mem.pending
  }

  /** The memory tables together hold every visible write past the oldest cut. */
  lemma MemoryTables(s: State)
    requires s.Up? && Inv(s)
    ensures var low := s.mem.cuts[|s.mem.frozen|];
            Union([s.mem.active] + Tables(s.mem.frozen)) == set v | v in Applied(s) && v.seqno > low
  {
    hide LogsInv, SyncInv, ChainInv, BoundsInv, UnlinkInv, FilesInv, StoredInv, Organized, FlushInv, CompactInv,
        LogChain;
    var m, h := s.mem, s.trace.history;
    var low := m.cuts[|m.frozen|];
    var layers := [m.active] + Tables(m.frozen);
    forall v | v in Union(layers)
      ensures v in Applied(s) && v.seqno > low
    {
      var i :| 0 <= i < |layers| && v in layers[i];
      if i > 0 {
        assert v in m.frozen[i - 1].table;
        assert i == |m.frozen| || low <= m.cuts[i];
        assert i - 1 == 0 || m.cuts[i - 1] <= m.cuts[0];
      } else {
        assert |m.frozen| == 0 || low <= m.cuts[0];
      }
    }
    forall v | v in Applied(s) && v.seqno > low
      ensures v in Union(layers)
    {
      if v.seqno > m.cuts[0] {
        assert v in layers[0];
      } else {
        var i := StretchOf(m.cuts, v.seqno);
        assert layers[i + 1] == m.frozen[i].table;
        assert v in Between(h, m.cuts[i + 1], m.cuts[i]);
        assert v in layers[i + 1];
      }
    }
  }

  /** Which stretch between two cuts a sequence number falls in. */
  lemma {:induction false} StretchOf(cuts: seq<nat>, n: nat) returns (i: nat)
    requires cuts != [] && cuts[|cuts| - 1] < n <= cuts[0]
    ensures i + 1 < |cuts| && cuts[i + 1] < n <= cuts[i]
    decreases |cuts|
  {
    if cuts[1] < n {
      i := 0;
    } else {
      var j := StretchOf(cuts[1..], n);
      i := j + 1;
    }
  }

  lemma TablesStacked(s: State, i: nat, j: nat)
    requires s.Up? && Inv(s) && i < j <= |s.mem.frozen|
    ensures var layers := [s.mem.active] + Tables(s.mem.frozen); Covered(layers[i], layers[j])
  {
    hide LogsInv, SyncInv, ChainInv, BoundsInv, UnlinkInv, FilesInv, StoredInv, Organized, FlushInv, CompactInv,
        LogChain;
    var m := s.mem;
    var layers := [m.active] + Tables(m.frozen);
    assert layers[j] == Between(s.trace.history, m.cuts[j], m.cuts[j - 1]);
    assert j - 1 == i || m.cuts[j - 1] <= m.cuts[i];
    if i > 0 {
      assert layers[i] == Between(s.trace.history, m.cuts[i], m.cuts[i - 1]);
    }
    forall v: Version, w: Version | v in layers[i] && w in layers[j]
      ensures w.seqno <= v.seqno
    {
    }
  }

  /** A memory table hides the files exactly as recency demands, even where it repeats what they hold. */
  lemma TablesOverFiles(s: State, i: nat)
    requires s.Up? && Inv(s) && i <= |s.mem.frozen|
    ensures Covered(([s.mem.active] + Tables(s.mem.frozen))[i], Contents(InUse(s.mem)))
  {
    hide LogsInv, SyncInv, ChainInv, BoundsInv, UnlinkInv, Layout, StoredInv, Organized, FlushInv, CompactInv, LogChain,
        TablesInv;
    var m := s.mem;
    TableOverFiles(m.active, m.frozen, m.cuts, m.pending, s.trace.history, s.trace.flushed, m.lastSeq,
                   Contents(InUse(m)), i);
  }

  lemma TableOverFiles(active: set<Version>, frozen: seq<Frozen>, cuts: seq<nat>, pending: set<Version>,
                       h: set<Version>,
                       flushed: nat, lastSeq: nat, files: set<Version>, i: nat)
    requires TablesInv(active, frozen, cuts, pending, h, flushed, lastSeq) && i <= |frozen| && files <= UpTo(h, flushed)
    ensures Covered(([active] + Tables(frozen))[i], files)
  {
    var top := ([active] + Tables(frozen))[i];
    assert i > 0 ==> top == Between(h, cuts[i], cuts[i - 1]);
    forall v, w | v in top && w in files && v.key == w.key && NewestIn(v, top)
      ensures w.seqno <= v.seqno
    {
      assert w in UpTo(h, flushed);
      if i < |frozen| {
        assert i == |frozen| - 1 || cuts[|frozen| - 1] <= cuts[i];
      } else if w.seqno > cuts[i] {
        assert w in top;
      }
    }
  }

  lemma StackIsOrdered(s: State)
    requires s.Up? && Inv(s)
    ensures |s.mem.levels| > 0 && Stacked(Stack(s.mem.active, s.mem.frozen, s.mem.levels))
    ensures Union(Stack(s.mem.active, s.mem.frozen, s.mem.levels))
         == Union([s.mem.active] + Tables(s.mem.frozen)) + Contents(InUse(s.mem))
  {
    var m := s.mem;
    var top, files := [m.active] + Tables(m.frozen), LayersOf(m.levels);
    OrganizedContents(m.levels, InUse(m));
    OrganizedStacks(m.levels, InUse(m));
    forall i, j | 0 <= i < j < |top|
      ensures Covered(top[i], top[j])
    {
      TablesStacked(s, i, j);
    }
    forall i | 0 <= i < |top|
      ensures Covered(top[i], Union(files))
    {
      TablesOverFiles(s, i);
    }
    StackJoin(top, files);
    assert Stack(m.active, m.frozen, m.levels) == top + files;
  }

  lemma StackJoin(a: seq<set<Version>>, b: seq<set<Version>>)
    requires Stacked(a) && Stacked(b) && forall i | 0 <= i < |a| :: Covered(a[i], Union(b))
    ensures Stacked(a + b) && Union(a + b) == Union(a) + Union(b)
  {
    var c := a + b;
    forall i, j | 0 <= i < j < |c|
      ensures Covered(c[i], c[j])
    {
      if i < |a| <= j {
        assert forall v | v in c[j] :: v in b[j - |a|] && v in Union(b);
      }
    }
    forall v | v in Union(a) + Union(b)
      ensures v in Union(c)
    {
      if v in Union(a) {
        var i :| 0 <= i < |a| && v in a[i];
        assert v in c[i];
      } else {
        var i :| 0 <= i < |b| && v in b[i];
        assert v in c[|a| + i];
      }
    }
    forall v | v in Union(c)
      ensures v in Union(a) + Union(b)
    {
      var i :| 0 <= i < |c| && v in c[i];
      if i >= |a| {
        assert v in b[i - |a|];
      }
    }
  }

  lemma StackStands(s: State)
    requires s.Up? && Inv(s)
    ensures |s.mem.levels| > 0
    ensures StandsFor(Union(Stack(s.mem.active, s.mem.frozen, s.mem.levels)), Applied(s)) && Distinct(Applied(s))
  {
    hide LogsInv, SyncInv, ChainInv, BoundsInv, UnlinkInv, Layout, StoredInv, Organized, FlushInv, CompactInv, LogChain,
        StandsFor;
    var m, h := s.mem, s.trace.history;
    var low := m.cuts[|m.frozen|];
    StackIsOrdered(s);
    MemoryTables(s);
    assert UpTo(h, s.trace.flushed) == set v | v in Applied(s) && v.seqno <= s.trace.flushed;
    LayerOver(Union([m.active] + Tables(m.frozen)), Contents(InUse(m)), Applied(s), low, s.trace.flushed);
  }

  /** Every lookup in every reachable state answers as one map of the newest visible write per key would. */
  lemma ReadsRefineOneMap(states: seq<State>, steps: seq<Step>, i: nat, k: Bytes)
    requires Run(states, steps) && i < |states| && states[i].Up?
    ensures |states[i].mem.levels| > 0
    ensures Read(states[i].mem, k) == Answer(Applied(states[i]), k)
  {
    RunHolds(states, steps, i);
    ReadIsAnswer(states[i], k);
  }

  lemma ReadIsAnswer(s: State, k: Bytes)
    requires s.Up? && Inv(s)
    ensures |s.mem.levels| > 0 && Read(s.mem, k) == Answer(Applied(s), k)
  {
    hide Inv, StandsFor;
    StackStands(s);
    StackIsOrdered(s);
    var stack := Stack(s.mem.active, s.mem.frozen, s.mem.levels);
    StandsWithin(Union(stack), Applied(s));
    FirstHitIsNewest(stack, k);
    StandsForAnswers(Union(stack), Applied(s), k);
  }

  lemma StandsWithin(s: set<Version>, h: set<Version>)
    requires StandsFor(s, h) && Distinct(h)
    ensures Distinct(s)
  {
  }

  /** The tables of a reachable store are what a lookup asks for. */
  lemma ReachableIsValid(s: State)
    requires s.Up? && Inv(s)
    ensures ValidTables(s.mem.active, s.mem.frozen, s.mem.levels)
  {
    hide LogsInv, SyncInv, ChainInv, BoundsInv, UnlinkInv, StoredInv, FlushInv, CompactInv, LogChain, TablesInv,
        StandsFor;
    StackStands(s);
    StandsWithin(Union(Stack(s.mem.active, s.mem.frozen, s.mem.levels)), Applied(s));
    OrganizedIsSearchable(s.mem.levels, InUse(s.mem));
  }

  /** A lookup in an open store, whatever run led there, finds the newest visible write of the key. */
  method GetAnywhere(live: LiveState, key: Bytes, ghost states: seq<State>, ghost steps: seq<Step>, ghost i: nat)
      returns (answer: Option<Bytes>)
    requires Run(states, steps) && i < |states| && states[i].Up?
    requires live.active == states[i].mem.active && live.frozen == states[i].mem.frozen
             && live.levels == states[i].mem.levels
    ensures answer == Answer(Applied(states[i]), key)
  {
    hide *;
    RunHolds(states, steps, i);
    ReachableIsValid(states[i]);
    ReadsRefineOneMap(states, steps, i, key);
    IsLive(live, states[i], key);
    answer := live.Get(key);
  }

  lemma IsLive(live: LiveState, s: State, key: Bytes)
    requires s.Up? && live.active == s.mem.active && live.frozen == s.mem.frozen && live.levels == s.mem.levels
    requires ValidTables(s.mem.active, s.mem.frozen, s.mem.levels) && |s.mem.levels| > 0
    ensures live.Valid()
    ensures Read(s.mem, key) == Visible(Shown(FirstHit(Stack(live.active, live.frozen, live.levels), key)))
  {
    hide ValidTables, FirstHit;
  }
}
