/** What every reachable state of the store keeps. */
module StoreInvariant {
  import opened Versions
  import opened Files
  import opened Compaction
  import opened Levels
  import opened EngineState
  import opened Store

  ghost predicate Rising(log: seq<Version>) {
    forall i, j | 0 <= i < j < |log| :: log[i].seqno < log[j].seqno
  }

  ghost predicate Precedes(a: seq<Version>, b: seq<Version>) {
    forall v, w | v in a && w in b :: v.seqno < w.seqno
  }

  /** The logs present hold, in order, exactly the writes past `base`: an upward-closed part of the history. */
  ghost predicate LogsInv(logs: map<nat, seq<Version>>, history: set<Version>, base: nat) {
    && (forall n | n in logs :: Rising(logs[n]))
    && (forall m, n | m in logs && n in logs && m < n :: Precedes(logs[m], logs[n]))
    && Recorded(logs) == Above(history, base)
  }

  ghost predicate HistoryInv(trace: Trace, pending: set<Version>) {
    && Distinct(trace.history) && trace.acked <= trace.history && pending !! trace.acked
    && trace.base <= trace.flushed
    && (forall v | v in trace.history :: 0 < v.seqno)
  }

  ghost predicate FilesInv(files: seq<File>, history: set<Version>, mark: nat) {
    Layout(files) && StandsFor(Contents(files), UpTo(history, mark))
  }

  /** Every named file is present and complete. */
  ghost predicate StoredInv(files: seq<File>, tables: map<nat, set<Version>>) {
    forall f | f in files :: f.number in tables && tables[f.number] == f.content
  }

  /** Only the current log has records not yet on the device, and their writers are still waiting. */
  ghost predicate SyncInv(logs: map<nat, seq<Version>>, synced: map<nat, nat>, current: nat, pending: set<Version>) {
    && synced.Keys == logs.Keys && current in logs
    && (forall n | n in logs :: synced[n] <= |logs[n]|)
    && (forall n | n in logs && n != current :: synced[n] == |logs[n]|)
    && (forall i | synced[current] <= i < |logs[current]| :: logs[current][i] in pending)
  }

  /** The tables in memory split the history past the oldest cut into consecutive stretches. */
  ghost predicate TablesInv(active: set<Version>, frozen: seq<Frozen>, cuts: seq<nat>, pending: set<Version>,
                            history: set<Version>, flushed: nat, lastSeq: nat) {
    && |cuts| == |frozen| + 1
    && (forall i, j | 0 <= i < j < |cuts| :: cuts[j] <= cuts[i])
    && cuts[|frozen|] <= flushed && (frozen != [] ==> flushed <= cuts[|frozen| - 1])
    && active == Above(history, cuts[0]) - pending
    && (forall i | 0 <= i < |frozen| :: frozen[i].table == Between(history, cuts[i + 1], cuts[i]))
    && pending <= Above(history, cuts[0]) && pending <= Above(history, flushed)
    && cuts[0] <= lastSeq && flushed <= lastSeq && (forall v | v in history :: v.seqno <= lastSeq)
  }

  /** Log numbers of the frozen tables, oldest table first. */
  ghost function FrozenLogs(frozen: seq<Frozen>): seq<nat> {
    if frozen == [] then [] else FrozenLogs(frozen[1..]) + frozen[0].logs
  }

  /** Every log on disk with the table that still needs it, oldest first. */
  ghost function LogChain(flush: Flush, frozen: seq<Frozen>, activeLogs: seq<nat>, rotating: Option<nat>): seq<nat> {
    (if flush.FlushUnlinking? then flush.logs else [])
    + FrozenLogs(frozen)
    + activeLogs
    + (if rotating.Some? then [rotating.value] else [])
  }

  ghost predicate ChainInv(chain: seq<nat>, logs: set<nat>) {
    && (forall i, j | 0 <= i < j < |chain| :: chain[i] < chain[j])
    && (forall n :: n in chain <==> n in logs)
  }

  /** A log kept for a table holds nothing newer than the table. */
  ghost predicate BoundsInv(frozen: seq<Frozen>, cuts: seq<nat>, logs: map<nat, seq<Version>>) {
    && |cuts| == |frozen| + 1
    && forall i, n, v | 0 <= i < |frozen| && n in frozen[i].logs && n in logs && v in logs[n] :: v.seqno <= cuts[i]
  }

  ghost predicate UnlinkInv(flush: Flush, logs: map<nat, seq<Version>>, flushed: nat) {
    flush.FlushUnlinking? ==> forall n, v | n in flush.logs && n in logs && v in logs[n] :: v.seqno <= flushed
  }

  ghost predicate RotationInv(rotating: Option<nat>, pending: set<Version>, logs: map<nat, seq<Version>>) {
    rotating.Some? ==> pending == {} && rotating.value in logs && logs[rotating.value] == []
  }

  ghost predicate NumbersInv(logs: set<nat>, tables: set<nat>, partials: set<nat>, next: nat) {
    && (forall n | n in logs :: n < next)
    && (forall n | n in tables :: n < next)
    && (forall n | n in partials :: n < next)
  }

  ghost predicate SnapshotInv(manifest: Snapshot, snapshot: Snapshot, mark: nat, lastSeq: nat, next: nat) {
    && snapshot == manifest
    && mark <= snapshot.lastSeq <= lastSeq && snapshot.nextNumber <= next
  }

  /** The number of a file being flushed: not in use, and higher than every level 0 file's. */
  ghost predicate FreshNumber(n: nat, files: seq<File>, next: nat) {
    && n < next && !Named(files, n) && forall f | f in files && f.level == 0 :: f.number < n
  }

  ghost predicate FlushedFile(file: File, frozen: seq<Frozen>, tables: map<nat, set<Version>>) {
    && frozen != [] && file.level == 0 && file.WellFormed()
    && file.content == Reduce(frozen[|frozen| - 1].table)
    && file.number in tables && tables[file.number] == file.content
  }

  ghost predicate FlushInv(flush: Flush, frozen: seq<Frozen>, files: seq<File>, next: nat,
                           tables: map<nat, set<Version>>, othersCommit: bool) {
    match flush
    case NoFlush => true
    case FlushWriting(n) => frozen != [] && FreshNumber(n, files, next)
    case FlushRenamed(file) => FreshNumber(file.number, files, next) && FlushedFile(file, frozen, tables)
    case FlushStamped(file, stamp) => FreshNumber(file.number, files, next) && FlushedFile(file, frozen, tables)
    case FlushCommitted(file, before) =>
      && FlushedFile(file, frozen, tables) && FreshNumber(file.number, before, next)
      && files == before + [file] && !othersCommit
    case FlushUnlinking(logs) => true
  }

  /** A flush read the last sequence number after its table was frozen. */
  ghost predicate StampInv(flush: Flush, compact: Compact, frozen: seq<Frozen>, cuts: seq<nat>, lastSeq: nat) {
    && (flush.FlushStamped? ==>
          frozen != [] && |cuts| == |frozen| + 1 && cuts[|frozen| - 1] <= flush.stamp <= lastSeq)
    && (compact.CompactStamped? ==> compact.stamp <= lastSeq)
  }

  /** The file number a flush in progress owns. */
  ghost predicate OwnedByFlush(flush: Flush, n: nat) {
    || (flush.FlushWriting? && flush.number == n)
    || (flush.FlushRenamed? && flush.file.number == n)
    || (flush.FlushStamped? && flush.file.number == n)
  }

  /** A number that neither a live file nor a flush in progress uses. */
  ghost predicate Spare(n: nat, flush: Flush, files: seq<File>, next: nat) {
    n < next && !Named(files, n) && !OwnedByFlush(flush, n)
  }

  ghost predicate OutputsInv(outs: seq<File>, flush: Flush, files: seq<File>, next: nat,
                             tables: map<nat, set<Version>>) {
    && UniqueNumbers(outs) && StoredInv(outs, tables)
    && forall o | o in outs :: Spare(o.number, flush, files, next)
  }

  ghost predicate PlanInv(planned: seq<File>, level: nat, files: seq<File>) {
    Layout(planned) && UpperInputs(planned, level) != [] && GrownBy(planned, files)
  }

  /** Numbers of files no longer part of the store. */
  ghost predicate Retired(removed: seq<nat>, flush: Flush, files: seq<File>, next: nat) {
    forall n | n in removed :: Spare(n, flush, files, next)
  }

  ghost predicate CompactInv(compact: Compact, flush: Flush, files: seq<File>, next: nat,
                             tables: map<nat, set<Version>>) {
    match compact
    case NoCompact => true
    case CompactMerging(planned, level, outs, writing) =>
      && PlanInv(planned, level, files) && OutputsInv(outs, flush, files, next, tables)
      && (writing.Some? ==> Spare(writing.value, flush, files, next) && !Named(outs, writing.value))
    case CompactStamped(planned, level, outs, stamp) =>
      && PlanInv(planned, level, files) && OutputsInv(outs, flush, files, next, tables)
      && CutInto(outs, Survivors(planned, InputsFor(planned, level), level + 1), level + 1)
    case CompactCommitted(removed, level, outs, before) =>
      && files == Retain(before, removed) + outs && !flush.FlushCommitted?
      && level > 0 && (forall o | o in outs :: o.level == level) && SortedApart(outs)
      && Retired(removed, flush, files, next)
    case CompactUnlinking(removed) => Retired(removed, flush, files, next)
  }

  /** The files lookups go through: a commit not yet published still shows the file set before it. */
  ghost function InUse(mem: Memory): seq<File> {
    if mem.flush.FlushCommitted? then mem.flush.before
    else if mem.compact.CompactCommitted? then mem.compact.before
    else mem.snapshot.files
  }

  /** The writing side: history, logs and memory tables. */
  ghost predicate WriteInv(disk: Disk, mem: Memory, trace: Trace) {
    && HistoryInv(trace, mem.pending)
    && LogsInv(disk.logs, trace.history, trace.base)
    && mem.activeLogs != []
    && SyncInv(disk.logs, disk.synced, CurrentLog(mem), mem.pending)
    && TablesInv(mem.active, mem.frozen, mem.cuts, mem.pending, trace.history, trace.flushed, mem.lastSeq)
    && ChainInv(LogChain(mem.flush, mem.frozen, mem.activeLogs, mem.rotating), disk.logs.Keys)
    && BoundsInv(mem.frozen, mem.cuts, disk.logs)
    && UnlinkInv(mem.flush, disk.logs, trace.flushed)
    && RotationInv(mem.rotating, mem.pending, disk.logs)
  }

  /** The file side: the durable file set, the one in use, and the work in progress on them. */
  ghost predicate FileSideInv(disk: Disk, mem: Memory, trace: Trace) {
    && NumbersInv(disk.logs.Keys, disk.tables.Keys, disk.partials, mem.nextNumber)
    && SnapshotInv(Manifest(disk), mem.snapshot, Mark(mem, trace.flushed), mem.lastSeq, mem.nextNumber)
    && FilesInv(mem.snapshot.files, trace.history, Mark(mem, trace.flushed))
    && FilesInv(InUse(mem), trace.history, trace.flushed)
    && StoredInv(mem.snapshot.files, disk.tables)
    && Organized(mem.levels, InUse(mem))
    && FlushInv(mem.flush, mem.frozen, mem.snapshot.files, mem.nextNumber, disk.tables, mem.compact.CompactCommitted?)
    && StampInv(mem.flush, mem.compact, mem.frozen, mem.cuts, mem.lastSeq)
    && CompactInv(mem.compact, mem.flush, mem.snapshot.files, mem.nextNumber, disk.tables)
  }

  /** What the disk alone guarantees. */
  ghost predicate DiskInv(disk: Disk, trace: Trace) {
    && HistoryInv(trace, {})
    && LogsInv(disk.logs, trace.history, trace.base)
    && disk.synced.Keys == disk.logs.Keys
    && (forall n | n in disk.logs :: disk.synced[n] == |disk.logs[n]|)
    && trace.flushed <= Manifest(disk).lastSeq
    && FilesInv(Manifest(disk).files, trace.history, trace.flushed)
    && StoredInv(Manifest(disk).files, disk.tables)
  }

  ghost predicate Inv(s: State) {
    match s
    case Up(disk, mem, trace) => WriteInv(disk, mem, trace) && FileSideInv(disk, mem, trace)
    case Opening(disk, trace, scanned) =>
      && DiskInv(disk, trace)
      && (forall n | n in disk.logs || n in disk.tables :: n < scanned)
    case Down(disk, trace) => DiskInv(disk, trace)
  }

  // ---- Writers ----

  /** Writes past a mark do not change what the files up to it stand for. */
  lemma FilesIgnoreNewer(files: seq<File>, h: set<Version>, h': set<Version>, mark: nat)
    requires FilesInv(files, h, mark) && UpTo(h', mark) == UpTo(h, mark)
    ensures FilesInv(files, h', mark)
  {
  }

  lemma RecordedAppend(logs: map<nat, seq<Version>>, n: nat, v: Version)
    requires n in logs
    ensures Recorded(logs[n := logs[n] + [v]]) == Recorded(logs) + {v}
  {
    var after := logs[n := logs[n] + [v]];
    forall w | w in Recorded(logs) + {v}
      ensures w in Recorded(after)
    {
      if w == v {
        assert v in after[n];
      } else {
        var m :| m in logs && w in logs[m];
        assert w in after[m];
      }
    }
  }

  lemma LogsAppend(logs: map<nat, seq<Version>>, h: set<Version>, base: nat, n: nat, v: Version)
    requires LogsInv(logs, h, base) && n in logs && (forall m | m in logs :: m <= n)
    requires base < v.seqno && forall w | w in h :: w.seqno < v.seqno
    ensures LogsInv(logs[n := logs[n] + [v]], h + {v}, base)
  {
    var after: map<nat, seq<Version>> := logs[n := logs[n] + [v]];
    RecordedAppend(logs, n, v);
    forall m, w | m in logs && w in logs[m]
      ensures w.seqno < v.seqno
    {
      assert w in Recorded(logs);
    }
    hide Recorded;
    forall i, j | 0 <= i < j < |after[n]|
      ensures after[n][i].seqno < after[n][j].seqno
    {
      if j == |logs[n]| {
        assert after[n][i] == logs[n][i] && logs[n][i] in logs[n];
      }
    }
    forall a, b | a in after && b in after && a < b
      ensures Precedes(after[a], after[b])
    {
      assert Precedes(logs[a], logs[b]);
    }
  }

  lemma TablesAppend(active: set<Version>, frozen: seq<Frozen>, cuts: seq<nat>, pending: set<Version>,
                     h: set<Version>, flushed: nat, lastSeq: nat, v: Version)
    requires TablesInv(active, frozen, cuts, pending, h, flushed, lastSeq) && v.seqno == lastSeq + 1
    ensures TablesInv(active, frozen, cuts, pending + {v}, h + {v}, flushed, v.seqno)
    ensures v !in h
  {
    assert Above(h + {v}, cuts[0]) == Above(h, cuts[0]) + {v};
    forall i | 0 <= i < |frozen|
      ensures Between(h + {v}, cuts[i + 1], cuts[i]) == Between(h, cuts[i + 1], cuts[i])
    {
      assert i == 0 || cuts[i] <= cuts[0];
    }
  }

  /** The current log is the highest numbered one. */
  lemma CurrentIsLast(flush: Flush, frozen: seq<Frozen>, activeLogs: seq<nat>, logs: set<nat>)
    requires activeLogs != [] && ChainInv(LogChain(flush, frozen, activeLogs, None), logs)
    ensures activeLogs[|activeLogs| - 1] in logs
    ensures forall n | n in logs :: n <= activeLogs[|activeLogs| - 1]
  {
    var chain := LogChain(flush, frozen, activeLogs, None);
    assert chain[|chain| - 1] == activeLogs[|activeLogs| - 1];
    forall n | n in logs
      ensures n <= chain[|chain| - 1]
    {
      var i :| 0 <= i < |chain| && chain[i] == n;
      assert i == |chain| - 1 || chain[i] < chain[|chain| - 1];
    }
  }

  /** A log of a frozen table, or of one just flushed, is not the current log. */
  lemma OlderLogs(flush: Flush, frozen: seq<Frozen>, activeLogs: seq<nat>, rotating: Option<nat>, logs: set<nat>,
                  n: nat)
    requires activeLogs != [] && ChainInv(LogChain(flush, frozen, activeLogs, rotating), logs)
    requires n in FrozenLogs(frozen) || (flush.FlushUnlinking? && n in flush.logs)
    ensures n < activeLogs[|activeLogs| - 1]
  {
    var chain := LogChain(flush, frozen, activeLogs, rotating);
    var older := (if flush.FlushUnlinking? then flush.logs else []) + FrozenLogs(frozen);
    assert n in older;
    var i :| 0 <= i < |older| && older[i] == n;
    var j := |older| + |activeLogs| - 1;
    assert chain[i] == n && chain[j] == activeLogs[|activeLogs| - 1];
  }

  lemma {:induction false} FrozenLogsHold(frozen: seq<Frozen>, i: nat, n: nat)
    requires i < |frozen| && n in frozen[i].logs
    ensures n in FrozenLogs(frozen)
  {
    if i > 0 {
      FrozenLogsHold(frozen[1..], i - 1, n);
    }
  }

  lemma BoundsAppend(s: State, n: nat, v: Version)
    requires s.Up? && s.mem.activeLogs != [] && n == CurrentLog(s.mem) && n in s.disk.logs
    requires ChainInv(LogChain(s.mem.flush, s.mem.frozen, s.mem.activeLogs, s.mem.rotating), s.disk.logs.Keys)
    requires BoundsInv(s.mem.frozen, s.mem.cuts, s.disk.logs) && UnlinkInv(s.mem.flush, s.disk.logs, s.trace.flushed)
    ensures BoundsInv(s.mem.frozen, s.mem.cuts, s.disk.logs[n := s.disk.logs[n] + [v]])
    ensures UnlinkInv(s.mem.flush, s.disk.logs[n := s.disk.logs[n] + [v]], s.trace.flushed)
  {
    var m := s.mem;
    forall i, k | 0 <= i < |m.frozen| && k in m.frozen[i].logs
      ensures k != n
    {
      FrozenLogsHold(m.frozen, i, k);
      OlderLogs(m.flush, m.frozen, m.activeLogs, m.rotating, s.disk.logs.Keys, k);
    }
    forall k | m.flush.FlushUnlinking? && k in m.flush.logs
      ensures k != n
    {
      OlderLogs(m.flush, m.frozen, m.activeLogs, m.rotating, s.disk.logs.Keys, k);
    }
  }

  lemma AppendKeeps(s: State, t: State, v: Version)
    requires Inv(s) && Append(s, t, v)
    ensures Inv(t)
  {
    hide LogsInv, TablesInv, ChainInv, BoundsInv, UnlinkInv, FilesInv, StoredInv, Organized, FlushInv, CompactInv,
        LogChain;
    var n := CurrentLog(s.mem);
    var h, h' := s.trace.history, t.trace.history;
    var mark := Mark(s.mem, s.trace.flushed);
    CurrentIsLast(s.mem.flush, s.mem.frozen, s.mem.activeLogs, s.disk.logs.Keys);
    TablesAppend(s.mem.active, s.mem.frozen, s.mem.cuts, s.mem.pending, h, s.trace.flushed, s.mem.lastSeq, v);
    SeqBounds(s);
    LogsAppend(s.disk.logs, h, s.trace.base, n, v);
    BoundsAppend(s, n, v);
    assert t.disk.logs.Keys == s.disk.logs.Keys;
    assert UpTo(h', mark) == UpTo(h, mark) && UpTo(h', s.trace.flushed) == UpTo(h, s.trace.flushed);
    FilesIgnoreNewer(s.mem.snapshot.files, h, h', mark);
    FilesIgnoreNewer(InUse(s.mem), h, h', s.trace.flushed);
  }

  lemma SeqBounds(s: State)
    requires s.Up? && Inv(s)
    ensures s.trace.base <= s.trace.flushed <= s.mem.lastSeq
    ensures Mark(s.mem, s.trace.flushed) <= s.mem.lastSeq
    ensures forall v | v in s.trace.history :: v.seqno <= s.mem.lastSeq
  {
  }

  lemma SyncKeeps(s: State, t: State, count: nat)
    requires Inv(s) && Sync(s, t, count)
    ensures Inv(t)
  {
    hide LogsInv, TablesInv, ChainInv, BoundsInv, UnlinkInv, FilesInv, StoredInv, Organized, FlushInv, CompactInv,
        LogChain;
  }

  /** An inserted record is one of the synced ones, so it is none of those still waiting. */
  lemma InsertSync(logs: map<nat, seq<Version>>, synced: map<nat, nat>, n: nat, pending: set<Version>, v: Version)
    requires SyncInv(logs, synced, n, pending) && Rising(logs[n]) && v in logs[n][..synced[n]]
    ensures SyncInv(logs, synced, n, pending - {v})
  {
    var i :| 0 <= i < synced[n] && logs[n][i] == v;
    forall j | synced[n] <= j < |logs[n]|
      ensures logs[n][j] in pending - {v}
    {
      assert logs[n][i].seqno < logs[n][j].seqno;
    }
  }

  lemma InsertKeeps(s: State, t: State, v: Version)
    requires Inv(s) && Insert(s, t, v)
    ensures Inv(t)
  {
    hide LogsInv, ChainInv, BoundsInv, UnlinkInv, FilesInv, StoredInv, Organized, FlushInv, CompactInv, LogChain,
        SyncInv;
    LogRises(s, CurrentLog(s.mem));
    InsertSync(s.disk.logs, s.disk.synced, CurrentLog(s.mem), s.mem.pending, v);
    TablesInsert(s.mem.active, s.mem.frozen, s.mem.cuts, s.mem.pending, s.trace.history, s.trace.flushed, s.mem.lastSeq,
                 v);
    assert t.mem.activeLogs == s.mem.activeLogs;
  }

  lemma LogRises(s: State, n: nat)
    requires s.Up? && LogsInv(s.disk.logs, s.trace.history, s.trace.base) && n in s.disk.logs
    ensures Rising(s.disk.logs[n])
  {
  }

  lemma TablesInsert(active: set<Version>, frozen: seq<Frozen>, cuts: seq<nat>, pending: set<Version>,
                     h: set<Version>, flushed: nat, lastSeq: nat, v: Version)
    requires TablesInv(active, frozen, cuts, pending, h, flushed, lastSeq) && v in pending
    ensures TablesInv(active + {v}, frozen, cuts, pending - {v}, h, flushed, lastSeq)
    ensures v in h
  {
    assert Above(h, cuts[0]) - (pending - {v}) == (Above(h, cuts[0]) - pending) + {v};
  }

  // ---- Rotation ----

  /** Handing out a number only moves the bound on numbers. */
  lemma NextNumber(flush: Flush, compact: Compact, frozen: seq<Frozen>, files: seq<File>, next: nat, higher: nat,
                   tables: map<nat, set<Version>>)
    requires FlushInv(flush, frozen, files, next, tables, compact.CompactCommitted?) && next <= higher
    requires CompactInv(compact, flush, files, next, tables)
    ensures FlushInv(flush, frozen, files, higher, tables, compact.CompactCommitted?)
    ensures CompactInv(compact, flush, files, higher, tables)
  {
  }

  lemma RotateCreateKeeps(s: State, t: State)
    requires Inv(s) && RotateCreate(s, t)
    ensures Inv(t)
  {
    hide TablesInv, FilesInv, StoredInv, Organized, FlushInv, CompactInv, FrozenLogs, LogsInv, SyncInv, BoundsInv,
        UnlinkInv, ChainInv;
    var n := s.mem.nextNumber;
    EmptyLogRest(s, n);
    NextNumber(s.mem.flush, s.mem.compact, s.mem.frozen, s.mem.snapshot.files, n, n + 1, s.disk.tables);
    EmptyLog(s.disk.logs, s.trace.history, s.trace.base, n);
    assert t.disk.logs.Keys == s.disk.logs.Keys + {n};
    var chain := LogChain(s.mem.flush, s.mem.frozen, s.mem.activeLogs, None);
    assert LogChain(t.mem.flush, t.mem.frozen, t.mem.activeLogs, t.mem.rotating) == chain + [n];
    ChainExtend(chain, s.disk.logs.Keys, n);
  }

  lemma EmptyLog(logs: map<nat, seq<Version>>, h: set<Version>, base: nat, n: nat)
    requires LogsInv(logs, h, base) && n !in logs
    ensures LogsInv(logs[n := []], h, base)
  {
    var after: map<nat, seq<Version>> := logs[n := []];
    forall w | w in Recorded(logs)
      ensures w in Recorded(after)
    {
      var m :| m in logs && w in logs[m];
      assert m in after && w in after[m];
    }
    assert Recorded(after) == Recorded(logs);
  }

  lemma EmptyLogRest(s: State, n: nat)
    requires s.Up? && n !in s.disk.logs && s.mem.activeLogs != []
    requires SyncInv(s.disk.logs, s.disk.synced, CurrentLog(s.mem), s.mem.pending)
    requires BoundsInv(s.mem.frozen, s.mem.cuts, s.disk.logs) && UnlinkInv(s.mem.flush, s.disk.logs, s.trace.flushed)
    ensures SyncInv(s.disk.logs[n := []], s.disk.synced[n := 0], CurrentLog(s.mem), s.mem.pending)
    ensures BoundsInv(s.mem.frozen, s.mem.cuts, s.disk.logs[n := []])
    ensures UnlinkInv(s.mem.flush, s.disk.logs[n := []], s.trace.flushed)
  {
  }

  lemma ChainExtend(chain: seq<nat>, logs: set<nat>, n: nat)
    requires ChainInv(chain, logs) && forall m | m in logs :: m < n
    ensures ChainInv(chain + [n], logs + {n})
  {
    assert forall i | 0 <= i < |chain| :: chain[i] in chain;
  }

  lemma RotateSwapKeeps(s: State, t: State)
    requires Inv(s) && RotateSwap(s, t)
    ensures Inv(t)
  {
    hide LogsInv, FilesInv, StoredInv, Organized, FlushInv, CompactInv, TablesInv, BoundsInv, SyncInv, ChainInv;
    var n := s.mem.rotating.value;
    var m, h := s.mem, s.trace.history;
    assert ([Frozen(m.active, m.activeLogs)] + m.frozen)[1..] == m.frozen;
    assert LogChain(t.mem.flush, t.mem.frozen, t.mem.activeLogs, None)
           == LogChain(m.flush, m.frozen, m.activeLogs, m.rotating);
    TablesFreeze(m.active, m.activeLogs, m.frozen, m.cuts, h, s.trace.flushed, m.lastSeq);
    SeqBounds(s);
    RecordsAreOld(s.disk.logs, h, s.trace.base, m.lastSeq);
    RotateSync(s.disk.logs, s.disk.synced, CurrentLog(m), n, m.pending);
    BoundsFreeze(m.active, m.activeLogs, m.frozen, m.cuts, s.disk.logs, m.lastSeq);
    FrozenFlush(m.flush, Frozen(m.active, m.activeLogs), m.frozen, m.snapshot.files, m.nextNumber, s.disk.tables,
                m.compact.CompactCommitted?);
    assert forall i | 0 <= i < |m.cuts| :: ([m.lastSeq] + m.cuts)[i + 1] == m.cuts[i];
    CutsMatch(s);
    assert Mark(t.mem, t.trace.flushed) == Mark(m, s.trace.flushed);
  }

  /** With no writer waiting, every record of the old current log is on the device. */
  lemma RotateSync(logs: map<nat, seq<Version>>, synced: map<nat, nat>, current: nat, n: nat, pending: set<Version>)
    requires SyncInv(logs, synced, current, pending) && pending == {} && n in logs && logs[n] == []
    ensures SyncInv(logs, synced, n, pending)
  {
    FirstUnsynced(logs[current], synced[current], pending);
  }

  lemma FirstUnsynced(log: seq<Version>, synced: nat, pending: set<Version>)
    requires synced <= |log| && forall i | synced <= i < |log| :: log[i] in pending
    ensures synced == |log| || log[synced] in pending
  {
  }

  lemma CutsMatch(s: State)
    requires s.Up? && Inv(s)
    ensures |s.mem.cuts| == |s.mem.frozen| + 1
    ensures s.mem.flush.FlushWriting? || s.mem.flush.FlushRenamed? || s.mem.flush.FlushStamped?
            || s.mem.flush.FlushCommitted?
            ==> s.mem.frozen != []
  {
  }

  lemma RecordsAreOld(logs: map<nat, seq<Version>>, h: set<Version>, base: nat, lastSeq: nat)
    requires LogsInv(logs, h, base) && forall v | v in h :: v.seqno <= lastSeq
    ensures forall n, v | n in logs && v in logs[n] :: v.seqno <= lastSeq
  {
    forall n, v | n in logs && v in logs[n]
      ensures v.seqno <= lastSeq
    {
      assert v in Recorded(logs);
    }
  }

  lemma TablesFreeze(active: set<Version>, activeLogs: seq<nat>, frozen: seq<Frozen>, cuts: seq<nat>,
                     h: set<Version>, flushed: nat, lastSeq: nat)
    requires TablesInv(active, frozen, cuts, {}, h, flushed, lastSeq)
    ensures TablesInv({}, [Frozen(active, activeLogs)] + frozen, [lastSeq] + cuts, {}, h, flushed, lastSeq)
  {
    assert Above(h, lastSeq) == {};
    assert active == Between(h, cuts[0], lastSeq);
    var f, c := [Frozen(active, activeLogs)] + frozen, [lastSeq] + cuts;
    forall i | 0 <= i < |f|
      ensures f[i].table == Between(h, c[i + 1], c[i])
    {
      if i > 0 {
        assert f[i] == frozen[i - 1] && c[i] == cuts[i - 1] && c[i + 1] == cuts[i];
      }
    }
    forall i, j | 0 <= i < j < |c|
      ensures c[j] <= c[i]
    {
      if i > 0 {
        assert cuts[j - 1] <= cuts[i - 1];
      } else {
        assert j == 1 || cuts[j - 1] <= cuts[0];
      }
    }
  }

  lemma BoundsFreeze(active: set<Version>, activeLogs: seq<nat>, frozen: seq<Frozen>, cuts: seq<nat>,
                     logs: map<nat, seq<Version>>, lastSeq: nat)
    requires BoundsInv(frozen, cuts, logs)
    requires forall n, v | n in logs && v in logs[n] :: v.seqno <= lastSeq
    ensures BoundsInv([Frozen(active, activeLogs)] + frozen, [lastSeq] + cuts, logs)
  {
    var f, c := [Frozen(active, activeLogs)] + frozen, [lastSeq] + cuts;
    forall i, n, v | 0 <= i < |f| && n in f[i].logs && n in logs && v in logs[n]
      ensures v.seqno <= c[i]
    {
      if i > 0 {
        assert f[i] == frozen[i - 1] && c[i] == cuts[i - 1];
      }
    }
  }

  /** Freezing another table does not touch the oldest one, which is the one being flushed. */
  lemma FrozenFlush(flush: Flush, newest: Frozen, frozen: seq<Frozen>, files: seq<File>, next: nat,
                    tables: map<nat, set<Version>>, othersCommit: bool)
    requires FlushInv(flush, frozen, files, next, tables, othersCommit)
    ensures FlushInv(flush, [newest] + frozen, files, next, tables, othersCommit)
  {
  }

  /** Writing a table under an unused number leaves every live and every finished output file alone. */
  lemma TableAdded(files: seq<File>, tables: map<nat, set<Version>>, n: nat, content: set<Version>)
    requires StoredInv(files, tables) && !Named(files, n)
    ensures StoredInv(files, tables[n := content])
  {
  }
}
