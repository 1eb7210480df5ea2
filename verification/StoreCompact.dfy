/** The steps of a compaction keep the invariant, whatever flushes do in between. */
module StoreCompact {
  import opened Keys
  import opened Versions
  import opened Files
  import opened Compaction
  import opened Levels
  import opened EngineState
  import opened Store
  import opened StoreInvariant

  lemma CompactPlanKeeps(s: State, t: State, level: nat)
    requires Inv(s) && CompactPlan(s, t, level)
    ensures Inv(t)
  {
    hide WriteInv, StoredInv, Organized, FlushInv, FilesInv, NumbersInv, SnapshotInv;
    PlannedWrites(s, t, level);
    PlannedFiles(s);
    NoCommit(s.mem.flush, s.mem.frozen, s.mem.snapshot.files, s.mem.nextNumber, s.disk.tables);
    NothingWritten(s.disk.tables);
    assert t.mem.activeLogs == s.mem.activeLogs;
  }

  lemma PlannedWrites(s: State, t: State, level: nat)
    requires Inv(s) && CompactPlan(s, t, level)
    ensures WriteInv(t.disk, t.mem, t.trace)
  {
    hide LogsInv, SyncInv, TablesInv, ChainInv, BoundsInv, FileSideInv, FrozenLogs, UpperInputs;
  }

  lemma PlannedFiles(s: State)
    requires s.Up? && Inv(s)
    ensures Layout(s.mem.snapshot.files)
  {
    hide WriteInv, Layout, StandsFor, Organized, StoredInv, FlushInv, CompactInv;
  }

  lemma NothingWritten(tables: map<nat, set<Version>>)
    ensures StoredInv([], tables)
  {
  }

  /** A flush not committing does not depend on whether a compaction is. */
  lemma NoCommit(flush: Flush, frozen: seq<Frozen>, files: seq<File>, next: nat, tables: map<nat, set<Version>>)
    ensures forall a, b :: FlushInv(flush, frozen, files, next, tables, a) && !flush.FlushCommitted? ==>
              FlushInv(flush, frozen, files, next, tables, b)
  {
  }

  lemma CompactOpenKeeps(s: State, t: State)
    requires Inv(s) && CompactOpen(s, t)
    ensures Inv(t)
  {
    hide LogsInv, SyncInv, TablesInv, ChainInv, BoundsInv, StoredInv, Organized, FrozenLogs, FlushInv, FilesInv,
        CompactInv;
    var n := s.mem.nextNumber;
    NextNumber(s.mem.flush, s.mem.compact, s.mem.frozen, s.mem.snapshot.files, n, n + 1, s.disk.tables);
    OpenOutput(s, n);
    assert t.mem.activeLogs == s.mem.activeLogs;
  }

  lemma OpenOutput(s: State, n: nat)
    requires s.Up? && s.mem.compact.CompactMerging? && n == s.mem.nextNumber
    requires StoredInv(s.mem.snapshot.files, s.disk.tables)
    requires FlushInv(s.mem.flush, s.mem.frozen, s.mem.snapshot.files, n, s.disk.tables, false)
    requires CompactInv(s.mem.compact, s.mem.flush, s.mem.snapshot.files, n, s.disk.tables)
    requires CompactInv(s.mem.compact, s.mem.flush, s.mem.snapshot.files, n + 1, s.disk.tables)
    requires forall m | m in s.disk.tables :: m < n
    ensures CompactInv(s.mem.compact.(writing := Some(n)), s.mem.flush, s.mem.snapshot.files, n + 1, s.disk.tables)
  {
  }

  lemma CompactSealKeeps(s: State, t: State, file: File)
    requires Inv(s) && CompactSeal(s, t, file)
    ensures Inv(t)
  {
    hide LogsInv, SyncInv, TablesInv, ChainInv, BoundsInv, StoredInv, Organized, FrozenLogs, FlushInv, FilesInv,
        CompactInv;
    var m := s.mem;
    SealOutput(m.compact, m.flush, m.snapshot.files, m.nextNumber, s.disk.tables, file);
    TableAdded(m.snapshot.files, s.disk.tables, file.number, file.content);
    SealFlush(m.flush, m.frozen, m.snapshot.files, m.nextNumber, s.disk.tables, file, false);
    assert t.disk.tables.Keys == s.disk.tables.Keys + {file.number};
    assert t.mem.activeLogs == m.activeLogs;
  }

  lemma SealOutput(compact: Compact, flush: Flush, files: seq<File>, next: nat, tables: map<nat, set<Version>>,
                   file: File)
    requires CompactInv(compact, flush, files, next, tables)
    requires compact.CompactMerging? && compact.writing == Some(file.number)
    ensures CompactInv(compact.(outs := compact.outs + [file], writing := None), flush, files, next,
                       tables[file.number := file.content])
    ensures Spare(file.number, flush, files, next)
  {
    hide Layout, Spare, StoredInv, GrownBy, UpperInputs;
    var outs := compact.outs;
    assert forall i | 0 <= i < |outs| :: outs[i] in outs && outs[i].number != file.number;
    TableAdded(outs, tables, file.number, file.content);
    OneMoreStored(outs, tables[file.number := file.content], file);
  }

  lemma OneMoreStored(outs: seq<File>, tables: map<nat, set<Version>>, file: File)
    requires StoredInv(outs, tables) && file.number in tables && tables[file.number] == file.content
    ensures StoredInv(outs + [file], tables)
  {
  }

  lemma SealFlush(flush: Flush, frozen: seq<Frozen>, files: seq<File>, next: nat, tables: map<nat, set<Version>>,
                  file: File, othersCommit: bool)
    requires FlushInv(flush, frozen, files, next, tables, othersCommit) && Spare(file.number, flush, files, next)
    ensures FlushInv(flush, frozen, files, next, tables[file.number := file.content], othersCommit)
  {
    if flush.FlushCommitted? {
      assert flush.file in files;
    }
  }

  lemma CompactStampKeeps(s: State, t: State)
    requires Inv(s) && CompactStamp(s, t)
    ensures Inv(t)
  {
    hide LogsInv, SyncInv, TablesInv, ChainInv, BoundsInv, StoredInv, Organized, FrozenLogs, FlushInv, FilesInv,
        CompactInv, CutInto;
    StampCompact(s.mem.compact, s.mem.flush, s.mem.snapshot.files, s.mem.nextNumber, s.disk.tables, s.mem.lastSeq);
    assert t.mem.activeLogs == s.mem.activeLogs;
  }

  lemma StampCompact(compact: Compact, flush: Flush, files: seq<File>, next: nat, tables: map<nat, set<Version>>,
                     stamp: nat)
    requires CompactInv(compact, flush, files, next, tables) && compact.CompactMerging?
    requires CutInto(compact.outs, Survivors(compact.planned, InputsFor(compact.planned, compact.level),
                                             compact.level + 1), compact.level + 1)
    ensures CompactInv(CompactStamped(compact.planned, compact.level, compact.outs, stamp), flush, files, next, tables)
  {
    hide PlanInv, OutputsInv, CutInto;
  }

  // ---- The commit ----

  /** The commit takes effect on a file set that satisfies everything the replacement needs. */
  lemma CommitCompacts(planned: seq<File>, level: nat, outs: seq<File>, flush: Flush, files: seq<File>, next: nat,
                       tables: map<nat, set<Version>>, h: set<Version>, flushed: nat)
    requires PlanInv(planned, level, files) && OutputsInv(outs, flush, files, next, tables)
    requires CutInto(outs, Survivors(planned, InputsFor(planned, level), level + 1), level + 1)
    requires FilesInv(files, h, flushed) && Distinct(h)
    ensures Compacts(planned, files, level, outs)
  {
    assert Contents(files) <= h;
    forall o, f | o in outs && f in files
      ensures o.number != f.number
    {
      assert Spare(o.number, flush, files, next);
    }
  }

  lemma CommitFiles(planned: seq<File>, files: seq<File>, level: nat, outs: seq<File>, h: set<Version>, flushed: nat)
    requires Compacts(planned, files, level, outs) && FilesInv(files, h, flushed) && Distinct(h)
    ensures FilesInv(Replaced(files, InputsFor(planned, level), outs), h, flushed)
  {
    CompactionKeepsLayout(planned, files, level, outs);
    CompactionKeepsAnswers(planned, files, level, outs, UpTo(h, flushed));
  }

  lemma CommitFlush(planned: seq<File>, level: nat, outs: seq<File>, flush: Flush, frozen: seq<Frozen>,
                    files: seq<File>, next: nat, tables: map<nat, set<Version>>)
    requires FlushInv(flush, frozen, files, next, tables, false) && !flush.FlushCommitted?
    requires OutputsInv(outs, flush, files, next, tables) && forall o | o in outs :: o.level > 0
    ensures FlushInv(flush, frozen, Replaced(files, InputsFor(planned, level), outs), next, tables, true)
  {
    var after := Replaced(files, InputsFor(planned, level), outs);
    forall n | Named(after, n)
      ensures Named(files, n) || !OwnedByFlush(flush, n)
    {
      var f :| f in after && f.number == n;
      if f in outs {
        assert Spare(f.number, flush, files, next);
      }
    }
  }

  lemma CommitStored(files: seq<File>, removed: seq<nat>, outs: seq<File>, tables: map<nat, set<Version>>)
    requires StoredInv(files, tables) && StoredInv(outs, tables)
    ensures StoredInv(Retain(files, removed) + outs, tables)
  {
  }

  /** The inputs are no longer in use once the outputs are. */
  lemma CommitRetires(planned: seq<File>, level: nat, outs: seq<File>, flush: Flush, frozen: seq<Frozen>,
                      files: seq<File>, next: nat, tables: map<nat, set<Version>>)
    requires PlanInv(planned, level, files) && OutputsInv(outs, flush, files, next, tables)
    requires FlushInv(flush, frozen, files, next, tables, false) && !flush.FlushCommitted?
    requires StoredInv(files, tables) && forall m | m in tables :: m < next
    ensures Retired(Numbers(InputsFor(planned, level)), flush, Replaced(files, InputsFor(planned, level), outs), next)
  {
    hide Layout, FlushedFile, InputsFor, UniqueNumbers;
    var inputs := InputsFor(planned, level);
    var after := Replaced(files, inputs, outs);
    forall n | n in Numbers(inputs)
      ensures Spare(n, flush, after, next)
    {
      var i :| 0 <= i < |inputs| && inputs[i].number == n;
      InputsAreFiles(planned, level, inputs[i]);
      assert inputs[i] in files && Named(files, n);
      forall f | f in after
        ensures f.number != n
      {
        if f in outs {
          assert Spare(f.number, flush, files, next);
        }
      }
    }
  }

  lemma CutSorted(outs: seq<File>, kept: set<Version>, level: nat)
    requires CutInto(outs, kept, level)
    ensures SortedApart(outs)
  {
    KeyOrder();
    forall f | f in outs
      ensures AtMost(f.minKey, f.maxKey)
    {
      assert f.WellFormed();
      var v :| v in f.content && v.key == f.minKey;
      assert f.Covers(v.key);
    }
  }

  lemma CompactCommitKeeps(s: State, t: State)
    requires Inv(s) && CompactCommit(s, t)
    ensures Inv(t)
  {
    hide LogsInv, SyncInv, TablesInv, ChainInv, BoundsInv, StoredInv, Organized, FrozenLogs, FlushInv, FilesInv,
         PlanInv, OutputsInv, CutInto, SortedApart, Retired, Replaced, Compacts, InputsFor, Survivors;
    var m, c := s.mem, s.mem.compact;
    var files, inputs := m.snapshot.files, InputsFor(c.planned, c.level);
    CommitCompacts(c.planned, c.level, c.outs, m.flush, files, m.nextNumber, s.disk.tables, s.trace.history,
                   s.trace.flushed);
    CommitFiles(c.planned, files, c.level, c.outs, s.trace.history, s.trace.flushed);
    OutputLevels(c.outs, Survivors(c.planned, inputs, c.level + 1), c.level + 1);
    CommitFlush(c.planned, c.level, c.outs, m.flush, m.frozen, files, m.nextNumber, s.disk.tables);
    OutputsStored(c.outs, m.flush, files, m.nextNumber, s.disk.tables);
    CommitStored(files, Numbers(inputs), c.outs, s.disk.tables);
    CommitRetires(c.planned, c.level, c.outs, m.flush, m.frozen, files, m.nextNumber, s.disk.tables);
    CutSorted(c.outs, Survivors(c.planned, inputs, c.level + 1), c.level + 1);
    ReplacedIs(files, inputs, c.outs);
    assert t.mem.activeLogs == m.activeLogs;
  }

  lemma ReplacedIs(files: seq<File>, inputs: seq<File>, outs: seq<File>)
    ensures Replaced(files, inputs, outs) == Retain(files, Numbers(inputs)) + outs
  {
  }

  lemma OutputLevels(outs: seq<File>, kept: set<Version>, level: nat)
    requires CutInto(outs, kept, level)
    ensures forall o | o in outs :: o.level == level
  {
  }

  lemma OutputsStored(outs: seq<File>, flush: Flush, files: seq<File>, next: nat, tables: map<nat, set<Version>>)
    requires OutputsInv(outs, flush, files, next, tables)
    ensures StoredInv(outs, tables)
  {
  }

  // ---- Publication and clean-up ----

  lemma CompactPublishKeeps(s: State, t: State)
    requires Inv(s) && CompactPublish(s, t)
    ensures Inv(t)
  {
    hide LogsInv, SyncInv, TablesInv, ChainInv, BoundsInv, StoredInv, Organized, FrozenLogs, FlushInv, FilesInv,
        SortedApart, Retired;
    var m, c := s.mem, s.mem.compact;
    NoCommit(m.flush, m.frozen, m.snapshot.files, m.nextNumber, s.disk.tables);
    LaidOut(m.snapshot.files, s.trace.history, Mark(m, s.trace.flushed));
    CompactionKeepsOrganized(m.levels, c.before, c.removed, c.level, c.outs);
    assert t.mem.activeLogs == m.activeLogs;
  }

  lemma LaidOut(files: seq<File>, h: set<Version>, mark: nat)
    requires FilesInv(files, h, mark)
    ensures Layout(files)
  {
  }

  lemma CompactUnlinkKeeps(s: State, t: State)
    requires Inv(s) && CompactUnlink(s, t)
    ensures Inv(t)
  {
    hide LogsInv, SyncInv, TablesInv, ChainInv, BoundsInv, StoredInv, Organized, FrozenLogs, FlushInv, FilesInv;
    var m := s.mem;
    var n := m.compact.removed[0];
    assert n in m.compact.removed;
    UnlinkStored(m.snapshot.files, s.disk.tables, n);
    UnlinkFlush(m.flush, m.frozen, m.snapshot.files, m.nextNumber, s.disk.tables, n, false);
    assert t.disk.tables.Keys <= s.disk.tables.Keys;
    assert forall k | k in t.mem.compact.removed :: k in m.compact.removed;
    assert t.mem.activeLogs == m.activeLogs;
  }

  lemma UnlinkStored(files: seq<File>, tables: map<nat, set<Version>>, n: nat)
    requires StoredInv(files, tables) && !Named(files, n)
    ensures StoredInv(files, tables - {n})
  {
  }

  lemma UnlinkFlush(flush: Flush, frozen: seq<Frozen>, files: seq<File>, next: nat, tables: map<nat, set<Version>>,
                    n: nat, othersCommit: bool)
    requires FlushInv(flush, frozen, files, next, tables, othersCommit) && Spare(n, flush, files, next)
    ensures FlushInv(flush, frozen, files, next, tables - {n}, othersCommit)
  {
    if flush.FlushCommitted? {
      assert flush.file in files;
    }
  }

  lemma CompactDoneKeeps(s: State, t: State)
    requires Inv(s) && CompactDone(s, t)
    ensures Inv(t)
  {
    hide LogsInv, SyncInv, TablesInv, ChainInv, BoundsInv, StoredInv, Organized, FrozenLogs, FlushInv, FilesInv;
    assert t.mem.activeLogs == s.mem.activeLogs;
  }
}
