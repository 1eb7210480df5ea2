/** Crashing and reopening keep the invariant, and what a crash takes is a suffix of the history. */
module StoreCrash {
  import opened Bounds
  import opened Versions
  import opened Files
  import opened Levels
  import opened Store
  import opened StoreInvariant

  /** The writes a crash loses: records of the current log whose writers were still waiting. */
  lemma LostArePending(before: Disk, after: Disk, current: nat, pending: set<Version>, v: Version)
    requires SyncInv(before.logs, before.synced, current, pending) && Truncated(before, after)
    requires v in Recorded(before.logs) && v !in Recorded(after.logs)
    ensures v in before.logs[current] && v !in after.logs[current] && v in pending
  {
    var n :| n in before.logs && v in before.logs[n];
    assert after.logs[n] <= before.logs[n];
    var i :| 0 <= i < |before.logs[n]| && before.logs[n][i] == v;
    PrefixMember(after.logs[n], before.logs[n], i);
    assert v !in after.logs[n];
  }

  lemma PrefixMember(a: seq<Version>, b: seq<Version>, i: nat)
    requires a <= b && i < |b|
    ensures i < |a| ==> b[i] in a
  {
  }

  lemma TruncatedRecords(before: Disk, after: Disk)
    requires Truncated(before, after)
    ensures Recorded(after.logs) <= Recorded(before.logs)
    ensures forall n, v | n in after.logs && v in after.logs[n] :: v in before.logs[n]
  {
    forall n, v | n in after.logs && v in after.logs[n]
      ensures v in before.logs[n] && v in Recorded(before.logs)
    {
      assert after.logs[n] <= before.logs[n];
      var i :| 0 <= i < |after.logs[n]| && after.logs[n][i] == v;
      assert before.logs[n][i] == v;
    }
  }

  lemma TruncatedLogs(before: Disk, after: Disk, h: set<Version>, base: nat)
    requires LogsInv(before.logs, h, base) && Truncated(before, after)
    ensures LogsInv(after.logs, h - (Recorded(before.logs) - Recorded(after.logs)), base)
  {
    TruncatedRecords(before, after);
    var h' := h - (Recorded(before.logs) - Recorded(after.logs));
    assert Above(h', base) == Recorded(after.logs);
    forall n | n in after.logs
      ensures Rising(after.logs[n])
    {
      assert Rising(before.logs[n]) && after.logs[n] <= before.logs[n];
    }
    forall m, n | m in after.logs && n in after.logs && m < n
      ensures Precedes(after.logs[m], after.logs[n])
    {
      assert Precedes(before.logs[m], before.logs[n]);
    }
  }

  /** Files answer for a stretch of the history no lost write belongs to. */
  lemma MarkIsSafe(s: State)
    requires s.Up? && Inv(s)
    ensures forall v | v in s.mem.pending :: v.seqno > Mark(s.mem, s.trace.flushed) && v.seqno > s.trace.flushed
    ensures s.trace.flushed <= Mark(s.mem, s.trace.flushed) && s.mem.pending !! s.trace.acked
  {
    hide LogsInv, SyncInv, ChainInv, BoundsInv, UnlinkInv, FilesInv, StoredInv, Organized, FlushInv, CompactInv,
        LogChain;
    assert |s.mem.frozen| <= 1 || s.mem.cuts[|s.mem.frozen| - 1] <= s.mem.cuts[0];
  }

  lemma CrashKeeps(s: State, t: State)
    requires Inv(s) && Crash(s, t)
    ensures Inv(t)
  {
    hide LogsInv, SyncInv, TablesInv, ChainInv, BoundsInv, UnlinkInv, FilesInv, StoredInv, Organized, FlushInv,
        CompactInv,
         LogChain, Recorded, Truncated, NumbersInv, RotationInv, StampInv;
    var h, h' := s.trace.history, t.trace.history;
    TruncatedSync(s.disk, t.disk);
    TruncatedLogs(s.disk, t.disk, h, s.trace.base);
    if s.Up? {
      MarkIsSafe(s);
      var mark := Mark(s.mem, s.trace.flushed);
      forall v | v in h && v !in h'
        ensures v in s.mem.pending
      {
        LostArePending(s.disk, t.disk, CurrentLog(s.mem), s.mem.pending, v);
      }
      assert UpTo(h', mark) == UpTo(h, mark);
      FilesIgnoreNewer(s.mem.snapshot.files, h, h', mark);
    } else {
      FullySynced(s.disk, t.disk);
      assert h' == h;
    }
  }

  lemma TruncatedSync(before: Disk, after: Disk)
    requires Truncated(before, after)
    ensures after.synced.Keys == after.logs.Keys
    ensures forall n | n in after.logs :: after.synced[n] == |after.logs[n]|
    ensures after.tables == before.tables && after.manifest == before.manifest
  {
  }

  lemma FullySynced(before: Disk, after: Disk)
    requires Truncated(before, after)
    requires before.synced.Keys == before.logs.Keys
             && forall n | n in before.logs :: before.synced[n] == |before.logs[n]|
    ensures Recorded(before.logs) == Recorded(after.logs)
  {
    forall n | n in before.logs
      ensures after.logs[n] == before.logs[n]
    {
      assert after.logs[n] <= before.logs[n];
    }
    assert after.logs == before.logs;
  }

  // ---- Reopening ----

  lemma ScanKeeps(s: State, t: State, scanned: nat)
    requires Inv(s) && Scan(s, t, scanned)
    ensures Inv(t)
  {
  }

  lemma DropPartialKeeps(s: State, t: State, n: nat)
    requires Inv(s) && DropPartial(s, t, n)
    ensures Inv(t)
  {
    hide LogsInv, FilesInv, StoredInv;
  }

  lemma DropOrphanKeeps(s: State, t: State, n: nat)
    requires Inv(s) && DropOrphan(s, t, n)
    ensures Inv(t)
  {
    hide LogsInv, FilesInv;
  }

  /** What is read back from disk is what the manifest described. */
  lemma LoadedIsNamed(files: seq<File>, tables: map<nat, set<Version>>)
    requires StoredInv(files, tables)
    ensures Loaded(files, tables) == files
  {
    assert forall i | 0 <= i < |files| :: files[i] in files && Loaded(files, tables)[i] == files[i];
  }

  lemma ReplayedTable(logs: map<nat, seq<Version>>, h: set<Version>, base: nat, flushed: nat, lastSeq: nat, floor: nat)
    requires LogsInv(logs, h, base) && base <= flushed <= floor && IsLastSeq(lastSeq, floor, Recorded(logs))
    ensures TablesInv(Recorded(logs), [], [base], {}, h, flushed, lastSeq)
  {
    forall v | v in h
      ensures v.seqno <= lastSeq
    {
      if v.seqno > base {
        assert v in Recorded(logs);
      }
    }
  }

  lemma ReplayedLogs(numbers: seq<nat>, logs: map<nat, seq<Version>>, synced: map<nat, nat>)
    requires Lists(numbers, logs) && logs != map[]
    requires synced.Keys == logs.Keys && forall n | n in logs :: synced[n] == |logs[n]|
    ensures numbers != [] && SyncInv(logs, synced, numbers[|numbers| - 1], {})
    ensures ChainInv(LogChain(NoFlush, [], numbers, None), logs.Keys)
  {
    hide ChainInv, LogChain;
    var n :| n in logs;
    assert n in numbers;
    ListedChain(numbers, logs);
    assert numbers[|numbers| - 1] in numbers;
  }

  lemma ListedChain(numbers: seq<nat>, logs: map<nat, seq<Version>>)
    requires Lists(numbers, logs)
    ensures ChainInv(LogChain(NoFlush, [], numbers, None), logs.Keys)
  {
    assert LogChain(NoFlush, [], numbers, None) == numbers;
  }

  lemma FreshLog(logs: map<nat, seq<Version>>, h: set<Version>, base: nat, n: nat)
    requires LogsInv(logs, h, base) && logs == map[]
    ensures LogsInv(map[n := []], h, base) && Recorded(logs) == {}
    ensures SyncInv(map[n := []], map[n := 0], n, {})
    ensures ChainInv(LogChain(NoFlush, [], [n], None), {n})
  {
    assert LogChain(NoFlush, [], [n], None) == [n];
    var after: map<nat, seq<Version>> := map[n := []];
    assert Recorded(after) == {};
  }

  lemma OpenedLevels(files: seq<File>, h: set<Version>, mark: nat)
    requires FilesInv(files, h, mark)
    ensures Organized(Opened(files), files)
  {
    OpenedIsOrganized(files);
  }

  lemma FinishKeeps(s: State, t: State, numbers: seq<nat>, lastSeq: nat)
    requires Inv(s) && Finish(s, t, numbers, lastSeq)
    ensures Inv(t)
  {
    hide WriteInv, FileSideInv;
    FinishFiles(s, t, numbers, lastSeq);
    FinishWrites(s, t, numbers, lastSeq);
  }

  lemma FinishFiles(s: State, t: State, numbers: seq<nat>, lastSeq: nat)
    requires Inv(s) && Finish(s, t, numbers, lastSeq)
    ensures FileSideInv(t.disk, t.mem, t.trace)
  {
    hide LogsInv, FilesInv, StoredInv, Organized, Recorded, Opened, Lists;
    var files := Manifest(s.disk).files;
    LoadedIsNamed(files, s.disk.tables);
    OpenedLevels(files, s.trace.history, s.trace.flushed);
  }

  lemma FinishWrites(s: State, t: State, numbers: seq<nat>, lastSeq: nat)
    requires Inv(s) && Finish(s, t, numbers, lastSeq)
    ensures WriteInv(t.disk, t.mem, t.trace)
  {
    hide LogsInv, SyncInv, TablesInv, ChainInv, FilesInv, StoredInv, LogChain, Recorded, Opened, Lists, Loaded;
    var none := s.disk.logs == map[];
    var next := Max(s.scanned, Manifest(s.disk).nextNumber);
    ReplayedTable(s.disk.logs, s.trace.history, s.trace.base, s.trace.flushed, lastSeq, Manifest(s.disk).lastSeq);
    if none {
      FreshLog(s.disk.logs, s.trace.history, s.trace.base, next);
      assert t.disk.logs.Keys == {next};
    } else {
      ReplayedLogs(numbers, s.disk.logs, s.disk.synced);
    }
  }
}
