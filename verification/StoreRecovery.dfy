/** What a crash may cost, and when a stopped store opens again. */
module StoreRecovery {
  import opened Bounds
  import opened Keys
  import opened Versions
  import opened Files
  import opened Compaction
  import opened Levels
  import opened Store
  import opened StoreInvariant
  import opened StoreCrash
  import opened StoreSafety

  // ---- A crash costs a suffix of unacknowledged writes ----

  /** Writes past the first lost record are lost, writes before it are not. */
  lemma LostIsASuffix(s: State, t: State, first: nat)
    requires s.Up? && Inv(s) && Crash(s, t) && s.mem.rotating.None?
    requires var n := CurrentLog(s.mem);
             n in s.disk.logs && n in t.disk.logs && |t.disk.logs[n]| == first < |s.disk.logs[n]|
    ensures var p := s.disk.logs[CurrentLog(s.mem)][first].seqno;
            forall v | v in s.trace.history :: v in t.trace.history <==> v.seqno < p
  {
    hide SyncInv, TablesInv, ChainInv, BoundsInv, UnlinkInv, FilesInv, StoredInv, Organized, FlushInv, CompactInv,
         LogChain, NumbersInv, SnapshotInv, StampInv, RotationInv, HistoryInv, Recorded, Mark, LogsInv, Truncated;
    var n := CurrentLog(s.mem);
    var log := s.disk.logs[n];
    CurrentIsLast(s.mem.flush, s.mem.frozen, s.mem.activeLogs, s.disk.logs.Keys);
    forall v | v in s.trace.history
      ensures v in t.trace.history <==> v.seqno < log[first].seqno
    {
      if v !in Recorded(s.disk.logs) {
        UnrecordedIsOld(s, n, first, v);
      } else if v in Recorded(t.disk.logs) {
        var m := HolderOf(t.disk.logs, v);
        KeptBefore(s, t, first, m, v);
      } else {
        LostArePending(s.disk, t.disk, n, s.mem.pending, v);
        LostIsLater(s, t, n, first, v);
      }
    }
  }

  /** A write no log holds is older than every record. */
  lemma UnrecordedIsOld(s: State, n: nat, first: nat, v: Version)
    requires LogsInv(s.disk.logs, s.trace.history, s.trace.base) && n in s.disk.logs && first < |s.disk.logs[n]|
    requires v in s.trace.history && v !in Recorded(s.disk.logs)
    ensures v.seqno < s.disk.logs[n][first].seqno
  {
    hide Rising, Precedes;
    assert s.disk.logs[n][first] in s.disk.logs[n] && s.disk.logs[n][first] in Recorded(s.disk.logs);
  }

  lemma HolderOf(logs: map<nat, seq<Version>>, v: Version) returns (m: nat)
    requires v in Recorded(logs)
    ensures m in logs && v in logs[m]
  {
    m :| m in logs && v in logs[m];
  }

  lemma LostIsLater(s: State, t: State, n: nat, first: nat, v: Version)
    requires LogsInv(s.disk.logs, s.trace.history, s.trace.base) && Truncated(s.disk, t.disk) && n in s.disk.logs
    requires |t.disk.logs[n]| == first < |s.disk.logs[n]| && v in s.disk.logs[n] && v !in t.disk.logs[n]
    ensures s.disk.logs[n][first].seqno <= v.seqno
  {
    hide Precedes;
    var log, kept := s.disk.logs[n], t.disk.logs[n];
    assert kept <= log && Rising(log);
    var i :| 0 <= i < |log| && log[i] == v;
    PrefixMember(kept, log, i);
    assert i == first || first < i ==> log[first].seqno <= log[i].seqno;
  }

  lemma KeptBefore(s: State, t: State, first: nat, m: nat, v: Version)
    requires s.Up? && LogsInv(s.disk.logs, s.trace.history, s.trace.base) && Truncated(s.disk, t.disk)
    requires s.mem.activeLogs != [] && forall k | k in s.disk.logs :: k <= CurrentLog(s.mem)
    requires var n := CurrentLog(s.mem); n in s.disk.logs && |t.disk.logs[n]| == first < |s.disk.logs[n]|
    requires m in t.disk.logs && v in t.disk.logs[m]
    ensures v.seqno < s.disk.logs[CurrentLog(s.mem)][first].seqno
  {
    hide Recorded;
    var n := CurrentLog(s.mem);
    TruncatedRecords(s.disk, t.disk);
    assert Rising(s.disk.logs[n]) && (m < n ==> Precedes(s.disk.logs[m], s.disk.logs[n]));
    hide LogsInv;
    if m == n {
      KeptInLog(t.disk.logs[n], s.disk.logs[n], v);
    } else {
      assert s.disk.logs[n][first] in s.disk.logs[n];
    }
  }

  lemma KeptInLog(kept: seq<Version>, log: seq<Version>, v: Version)
    requires kept <= log && |kept| < |log| && v in kept && Rising(log)
    ensures v.seqno < log[|kept|].seqno
  {
    var i :| 0 <= i < |kept| && kept[i] == v;
    assert log[i] == v;
  }

  /** Wherever a run stops, what is left of the history is a prefix of it that holds every acknowledged write. */
  lemma CrashKeepsAcknowledgedPrefix(states: seq<State>, steps: seq<Step>, i: nat) returns (p: nat)
    requires Run(states, steps) && i < |steps| && steps[i].DoCrash?
    ensures states[i + 1].trace.history == UpTo(states[i].trace.history, p)
    ensures states[i].trace.acked <= states[i + 1].trace.history
  {
    hide Inv, Takes, Crash;
    var s, t := states[i], states[i + 1];
    RunHolds(states, steps, i);
    RunHolds(states, steps, i + 1);
    CrashStep(s, t);
    p := CrashPoint(s, t);
  }

  lemma CrashStep(s: State, t: State)
    requires Takes(s, t, DoCrash)
    ensures Crash(s, t)
  {
  }

  lemma CrashPoint(s: State, t: State) returns (p: nat)
    requires Inv(s) && Inv(t) && Crash(s, t)
    ensures t.trace.history == UpTo(s.trace.history, p) && s.trace.acked <= t.trace.history
  {
    hide LogsInv, SyncInv, TablesInv, ChainInv, BoundsInv, UnlinkInv, FilesInv, StoredInv, Organized, FlushInv,
        CompactInv,
         LogChain, NumbersInv, SnapshotInv, StampInv;
    var h := s.trace.history;
    if s.Up? {
      SeqBounds(s);
      CurrentKept(s, t);
      var n := CurrentLog(s.mem);
      if s.mem.rotating.None? && |t.disk.logs[n]| < |s.disk.logs[n]| {
        LostIsASuffix(s, t, |t.disk.logs[n]|);
        var first := s.disk.logs[n][|t.disk.logs[n]|];
        FirstIsPositive(s, n, |t.disk.logs[n]|);
        p := first.seqno - 1;
      } else {
        NothingLost(s, t);
        p := s.mem.lastSeq;
      }
    } else {
      FullySynced(s.disk, t.disk);
      p := HighestSeq(h);
    }
  }

  lemma CurrentKept(s: State, t: State)
    requires s.Up? && Inv(s) && Truncated(s.disk, t.disk)
    ensures CurrentLog(s.mem) in s.disk.logs && CurrentLog(s.mem) in t.disk.logs
    ensures |t.disk.logs[CurrentLog(s.mem)]| <= |s.disk.logs[CurrentLog(s.mem)]|
  {
    hide LogsInv, TablesInv, ChainInv, BoundsInv, UnlinkInv, FilesInv, StoredInv, Organized, FlushInv, CompactInv,
        LogChain;
    assert t.disk.logs[CurrentLog(s.mem)] <= s.disk.logs[CurrentLog(s.mem)];
  }

  lemma FirstIsPositive(s: State, n: nat, i: nat)
    requires s.Up? && Inv(s) && n in s.disk.logs && i < |s.disk.logs[n]|
    ensures 0 < s.disk.logs[n][i].seqno
  {
    hide SyncInv, TablesInv, ChainInv, BoundsInv, UnlinkInv, FilesInv, StoredInv, Organized, FlushInv, CompactInv,
        LogChain;
    assert s.disk.logs[n][i] in s.disk.logs[n];
    assert s.disk.logs[n][i] in Recorded(s.disk.logs);
  }

  lemma NothingLost(s: State, t: State)
    requires s.Up? && Inv(s) && Crash(s, t) && CurrentLog(s.mem) in s.disk.logs && CurrentLog(s.mem) in t.disk.logs
    requires s.mem.rotating.Some? || |t.disk.logs[CurrentLog(s.mem)]| == |s.disk.logs[CurrentLog(s.mem)]|
    ensures t.trace.history == s.trace.history
  {
    hide LogsInv, TablesInv, ChainInv, BoundsInv, UnlinkInv, FilesInv, StoredInv, Organized, FlushInv, CompactInv,
        LogChain, Recorded, SyncInv;
    var n := CurrentLog(s.mem);
    assert t.disk.logs[n] <= s.disk.logs[n];
    forall v | v in Recorded(s.disk.logs)
      ensures v in Recorded(t.disk.logs)
    {
      if v !in Recorded(t.disk.logs) {
        LostArePending(s.disk, t.disk, n, s.mem.pending, v);
      }
    }
  }

  lemma {:induction false} HighestSeq(h: set<Version>) returns (p: nat)
    ensures UpTo(h, p) == h
  {
    if h == {} {
      p := 0;
    } else {
      var v :| v in h;
      var q := HighestSeq(h - {v});
      p := Max(q, v.seqno);
      forall w | w in h
        ensures w.seqno <= p
      {
        assert w == v || w in UpTo(h - {v}, q);
      }
    }
  }

  /** An acknowledged write stays part of the store's past through every later step, crash and reopen. */
  lemma {:induction false} AcknowledgedForever(states: seq<State>, steps: seq<Step>, i: nat, j: nat)
    requires Run(states, steps) && i <= j < |states|
    ensures states[i].trace.acked <= states[j].trace.acked <= states[j].trace.history
    decreases j
  {
    RunHolds(states, steps, j);
    if i < j {
      AcknowledgedForever(states, steps, i, j - 1);
      AcksGrow(states[j - 1], states[j], steps[j - 1]);
    }
    HistoryOf(states[j]);
  }

  lemma AcksGrow(s: State, t: State, step: Step)
    requires Takes(s, t, step)
    ensures s.trace.acked <= t.trace.acked
  {
  }

  lemma HistoryOf(s: State)
    requires Inv(s)
    ensures s.trace.acked <= s.trace.history && Distinct(s.trace.history)
  {
  }

  /** Right after opening, a store answers every lookup from the surviving history. */
  lemma RecoveredStoreAnswers(states: seq<State>, steps: seq<Step>, i: nat, k: Bytes)
    requires Run(states, steps) && i < |steps| && steps[i].DoFinish?
    ensures var t := states[i + 1];
            t.Up? && |t.mem.levels| > 0 && Read(t.mem, k) == Answer(t.trace.history, k)
  {
    hide Takes, Read, Answer;
    FinishOpens(states[i], states[i + 1], steps[i]);
    ReadsRefineOneMap(states, steps, i + 1, k);
    assert Applied(states[i + 1]) == states[i + 1].trace.history;
  }

  lemma FinishOpens(s: State, t: State, step: Step)
    requires Takes(s, t, step) && step.DoFinish?
    ensures t.Up? && t.mem.pending == {}
  {
  }

  /** Only an insert changes an answer: appends, rotation, flushing and compaction, published or not, change none. */
  lemma OnlyInsertsChangeAnswers(states: seq<State>, steps: seq<Step>, i: nat, k: Bytes)
    requires Run(states, steps) && i < |steps| && states[i].Up? && states[i + 1].Up?
    ensures |states[i].mem.levels| > 0 && |states[i + 1].mem.levels| > 0
    ensures !steps[i].DoInsert? ==> Read(states[i + 1].mem, k) == Read(states[i].mem, k)
    ensures steps[i].DoInsert? ==> Applied(states[i + 1]) == Applied(states[i]) + {steps[i].v}
  {
    hide Inv, Takes, Initial, Read, Applied;
    RunHolds(states, steps, i);
    ReadsRefineOneMap(states, steps, i, k);
    ReadsRefineOneMap(states, steps, i + 1, k);
    AppliedChange(states[i], states[i + 1], steps[i]);
    assert !steps[i].DoInsert? ==> Applied(states[i + 1]) == Applied(states[i]);
  }

  lemma AppliedChange(s: State, t: State, step: Step)
    requires s.Up? && t.Up? && Inv(s) && Takes(s, t, step)
    ensures Applied(t) == Applied(s) + (if step.DoInsert? then {step.v} else {})
  {
    hide Inv, UpTo, Recorded, Opened, CutInto, Survivors, InputsFor, Replaced, Removed, Inserted, CanFinish;
    SeqBounds(s);
    PendingIsHistory(s);
    match step {
      case DoAppend(v) =>
        assert v !in s.trace.history;
      case DoInsert(v) =>
        assert v in s.trace.history;
      case _ =>
    }
  }

  lemma PendingIsHistory(s: State)
    requires s.Up? && Inv(s)
    ensures s.mem.pending <= s.trace.history
  {
    hide LogsInv, SyncInv, ChainInv, BoundsInv, UnlinkInv, FilesInv, StoredInv, Organized, FlushInv, CompactInv,
         LogChain;
  }

  /** The manifest never names a file that is missing or different from what it describes. */
  lemma ManifestNamesCompleteFiles(states: seq<State>, steps: seq<Step>, i: nat)
    requires Run(states, steps) && i < |states|
    ensures var disk := states[i].disk;
            forall f | f in Manifest(disk).files :: f.number in disk.tables && disk.tables[f.number] == f.content
  {
    RunHolds(states, steps, i);
    hide LogsInv, SyncInv, TablesInv, ChainInv, BoundsInv, UnlinkInv, FilesInv, Organized, FlushInv, CompactInv,
        LogChain;
  }

  // ---- Numbering ----

  /** Numbers handed out next are above every log and table present and every sequence number ever kept. */
  lemma NumberingSurvives(states: seq<State>, steps: seq<Step>, i: nat)
    requires Run(states, steps) && i < |states| && states[i].Up?
    ensures var s := states[i];
            && (forall n | n in s.disk.logs || n in s.disk.tables :: n < s.mem.nextNumber)
            && (forall v | v in s.trace.history :: v.seqno <= s.mem.lastSeq)
            && (forall f, v | f in s.mem.snapshot.files && v in f.content :: v in s.trace.history)
            && (forall n, v | n in s.disk.logs && v in s.disk.logs[n] :: v in s.trace.history)
  {
    var s := states[i];
    RunHolds(states, steps, i);
    SeqBounds(s);
    hide SyncInv, TablesInv, ChainInv, BoundsInv, UnlinkInv, Layout, StoredInv, Organized, FlushInv, CompactInv,
        LogChain;
    forall f, v | f in s.mem.snapshot.files && v in f.content
      ensures v in s.trace.history
    {
      assert v in Contents(s.mem.snapshot.files);
    }
    forall n, v | n in s.disk.logs && v in s.disk.logs[n]
      ensures v in s.trace.history
    {
      assert v in Recorded(s.disk.logs);
    }
  }

  /** The order rebuilt from the manifest is the order memory had, level by level. */
  lemma RebuiltOrderIsMemoryOrder(states: seq<State>, steps: seq<Step>, i: nat)
    requires Run(states, steps) && i < |states| && states[i].Up?
    requires !states[i].mem.flush.FlushCommitted? && !states[i].mem.compact.CompactCommitted?
    ensures var rebuilt, levels := Opened(Manifest(states[i].disk).files), states[i].mem.levels;
            && |rebuilt| > 0 && |levels| > 0 && rebuilt[0] == levels[0]
            && (forall l | 0 <= l < |rebuilt| && l < |levels| :: rebuilt[l] == levels[l])
            && (forall l | |rebuilt| <= l < |levels| :: levels[l] == [])
  {
    var s := states[i];
    RunHolds(states, steps, i);
    hide LogsInv, SyncInv, TablesInv, ChainInv, BoundsInv, UnlinkInv, StandsFor, StoredInv, Organized, FlushInv,
        CompactInv, LogChain, Opened;
    var files := s.mem.snapshot.files;
    OpenedIsOrganized(files);
    OrganizedIsUnique(s.mem.levels, Opened(files), files);
    LevelsExist(s.mem.levels, files);
    LevelsExist(Opened(files), files);
  }

  lemma LevelsExist(levels: seq<seq<File>>, files: seq<File>)
    requires Organized(levels, files)
    ensures |levels| > 0
  {
  }
}
