/** The steps of a flush keep the invariant. */
module StoreFlush {
  import opened Versions
  import opened Files
  import opened Compaction
  import opened Levels
  import opened EngineState
  import opened Store
  import opened StoreInvariant

  /** A number just handed out is higher than every live file's. */
  lemma HandedOutIsFresh(files: seq<File>, tables: map<nat, set<Version>>, n: nat)
    requires StoredInv(files, tables) && forall m | m in tables :: m < n
    ensures FreshNumber(n, files, n + 1)
  {
  }

  lemma OwnershipStarts(compact: Compact, flush: Flush, files: seq<File>, n: nat, tables: map<nat, set<Version>>)
    requires CompactInv(compact, flush, files, n, tables) && !flush.FlushCommitted?
    ensures CompactInv(compact, FlushWriting(n), files, n + 1, tables)
  {
  }

  lemma FlushStartKeeps(s: State, t: State)
    requires Inv(s) && FlushStart(s, t)
    ensures Inv(t)
  {
    hide LogsInv, SyncInv, TablesInv, ChainInv, BoundsInv, FilesInv, StoredInv, Organized, CompactInv, FrozenLogs;
    var n := s.mem.nextNumber;
    HandedOutIsFresh(s.mem.snapshot.files, s.disk.tables, n);
    OwnershipStarts(s.mem.compact, s.mem.flush, s.mem.snapshot.files, n, s.disk.tables);
    assert t.mem.activeLogs == s.mem.activeLogs;
  }

  lemma OwnershipKept(compact: Compact, flush: Flush, flush': Flush, files: seq<File>, next: nat,
                      tables: map<nat, set<Version>>, n: nat, content: set<Version>)
    requires CompactInv(compact, flush, files, next, tables) && OwnedByFlush(flush, n)
    requires (forall m :: OwnedByFlush(flush', m) ==> m == n) && !flush'.FlushCommitted?
    ensures CompactInv(compact, flush', files, next, tables[n := content])
  {
    if compact.CompactMerging? || compact.CompactStamped? {
      assert !Named(compact.outs, n);
      TableAdded(compact.outs, tables, n, content);
    }
  }

  lemma FlushRenameKeeps(s: State, t: State, file: File)
    requires Inv(s) && FlushRename(s, t, file)
    ensures Inv(t)
  {
    hide LogsInv, SyncInv, TablesInv, ChainInv, BoundsInv, FilesInv, StoredInv, Organized, CompactInv, FrozenLogs;
    TableAdded(s.mem.snapshot.files, s.disk.tables, file.number, file.content);
    OwnershipKept(s.mem.compact, s.mem.flush, t.mem.flush, s.mem.snapshot.files, s.mem.nextNumber, s.disk.tables,
                  file.number, file.content);
    assert t.disk.tables.Keys == s.disk.tables.Keys + {file.number};
    assert t.mem.activeLogs == s.mem.activeLogs;
  }

  lemma FlushStampKeeps(s: State, t: State)
    requires Inv(s) && FlushStamp(s, t)
    ensures Inv(t)
  {
    hide LogsInv, SyncInv, ChainInv, BoundsInv, FilesInv, StoredInv, Organized, CompactInv, FrozenLogs, FlushedFile;
    var file := s.mem.flush.file;
    FrozenExists(file, s.mem.frozen, s.disk.tables);
    SameOwner(s.mem.compact, s.mem.flush, t.mem.flush, s.mem.snapshot.files, s.mem.nextNumber, s.disk.tables);
    assert |s.mem.frozen| == 1 || s.mem.cuts[|s.mem.frozen| - 1] <= s.mem.cuts[0];
    assert t.mem.activeLogs == s.mem.activeLogs;
  }

  lemma FrozenExists(file: File, frozen: seq<Frozen>, tables: map<nat, set<Version>>)
    requires FlushedFile(file, frozen, tables)
    ensures frozen != []
  {
  }

  lemma SameOwner(compact: Compact, flush: Flush, flush': Flush, files: seq<File>, next: nat,
                  tables: map<nat, set<Version>>)
    requires CompactInv(compact, flush, files, next, tables)
    requires (forall m :: OwnedByFlush(flush', m) ==> OwnedByFlush(flush, m)) && !flush'.FlushCommitted?
    ensures CompactInv(compact, flush', files, next, tables)
  {
  }

  // ---- The commit ----

  /** A flushed table over the files below it answers for the history up to the table's end. */
  lemma FlushStands(files: seq<File>, h: set<Version>, flushed: nat, low: nat, high: nat, file: File, next: nat)
    requires FilesInv(files, h, flushed) && Distinct(h) && low <= flushed <= high
    requires file.content == Reduce(Between(h, low, high)) && file.level == 0 && file.WellFormed()
    requires FreshNumber(file.number, files, next)
    ensures FilesInv(files + [file], h, high)
  {
    hide Layout, StandsFor, FreshNumber, Reduce, HasKey, NewestIn;
    var top, upper := Between(h, low, high), UpTo(h, high);
    assert top == set v | v in upper && v.seqno > low;
    assert UpTo(h, flushed) == set v | v in upper && v.seqno <= flushed;
    LayerOver(top, Contents(files), upper, low, flushed);
    ReducedLayer(top, Contents(files), upper);
    ContentsAdd(files, file);
    assert Contents(files + [file]) == Reduce(top) + Contents(files);
    FlushLayout(files, file, next, top);
  }

  lemma ContentsAdd(files: seq<File>, file: File)
    ensures Contents(files + [file]) == Contents(files) + file.content
  {
    var after := files + [file];
    assert file in after;
    assert forall f | f in files :: f in after;
  }

  lemma FlushShadows(files: seq<File>, file: File, g: File, top: set<Version>)
    requires g in files && file.content == Reduce(top)
    requires forall v, w | v in top && w in Contents(files) && v.key == w.key && NewestIn(v, top) :: w.seqno <= v.seqno
    ensures Shadows(file, g)
  {
    assert forall w | w in g.content :: w in Contents(files);
  }

  lemma FlushLayout(files: seq<File>, file: File, next: nat, top: set<Version>)
    requires Layout(files) && FreshNumber(file.number, files, next)
    requires file.content == Reduce(top) && file.level == 0 && file.WellFormed()
    requires forall v, w | v in top && w in Contents(files) && v.key == w.key && NewestIn(v, top) :: w.seqno <= v.seqno
    ensures Layout(files + [file])
  {
    hide Shadows, Reduce, NewestIn;
    var after := files + [file];
    forall f, g | f in after && g in after && SearchedBefore(f, g)
      ensures Shadows(f, g)
    {
      if f == file {
        assert g in files;
        FlushShadows(files, file, g, top);
      }
    }
    forall i, j | 0 <= i < j < |after|
      ensures after[i].number != after[j].number
    {
      if j == |files| {
        assert after[i] in files;
      }
    }
  }

  lemma CompactSeesFlush(compact: Compact, flush: Flush, files: seq<File>, file: File, next: nat,
                         tables: map<nat, set<Version>>, before: seq<File>)
    requires CompactInv(compact, flush, files, next, tables) && OwnedByFlush(flush, file.number)
    requires FreshNumber(file.number, files, next) && file.level == 0 && !compact.CompactCommitted?
    ensures CompactInv(compact, FlushCommitted(file, before), files + [file], next, tables)
  {
    hide Layout, Spare, StoredInv, UniqueNumbers, CutInto, GrownBy, Survivors, InputsFor, UpperInputs, SortedApart;
    forall n | Spare(n, flush, files, next)
      ensures Spare(n, FlushCommitted(file, before), files + [file], next)
    {
      StaysSpare(n, flush, files, file, next, before);
    }
    if compact.CompactMerging? || compact.CompactStamped? {
      GrowsByFlush(compact.planned, files, file, next);
    }
  }

  lemma StaysSpare(n: nat, flush: Flush, files: seq<File>, file: File, next: nat, before: seq<File>)
    requires Spare(n, flush, files, next) && OwnedByFlush(flush, file.number)
    ensures Spare(n, FlushCommitted(file, before), files + [file], next)
  {
  }

  lemma GrowsByFlush(planned: seq<File>, files: seq<File>, file: File, next: nat)
    requires GrownBy(planned, files) && FreshNumber(file.number, files, next) && file.level == 0
    ensures GrownBy(planned, files + [file])
  {
  }

  lemma FlushCommitKeeps(s: State, t: State)
    requires Inv(s) && FlushCommit(s, t)
    ensures Inv(t)
  {
    hide LogsInv, SyncInv, TablesInv, ChainInv, BoundsInv, FilesInv, StoredInv, Organized, CompactInv, FrozenLogs,
        FlushedFile, FreshNumber;
    var m := s.mem;
    var file, last := m.flush.file, |m.frozen| - 1;
    FlushedTable(s);
    FlushStands(m.snapshot.files, s.trace.history, s.trace.flushed, m.cuts[last + 1], m.cuts[last], file, m.nextNumber);
    StoredAdd(m.snapshot.files, s.disk.tables, file, m.frozen);
    CompactSeesFlush(m.compact, m.flush, m.snapshot.files, file, m.nextNumber, s.disk.tables, m.snapshot.files);
    assert t.mem.activeLogs == m.activeLogs;
  }

  lemma FlushedTable(s: State)
    requires s.Up? && Inv(s) && s.mem.flush.FlushStamped?
    ensures s.mem.frozen != [] && |s.mem.cuts| == |s.mem.frozen| + 1 && Distinct(s.trace.history)
    ensures var last := |s.mem.frozen| - 1;
            && s.mem.cuts[last + 1] <= s.trace.flushed <= s.mem.cuts[last]
            && s.mem.flush.file.content == Reduce(Between(s.trace.history, s.mem.cuts[last + 1], s.mem.cuts[last]))
            && s.mem.flush.file.level == 0 && s.mem.flush.file.WellFormed()
  {
    hide LogsInv, SyncInv, ChainInv, BoundsInv, FilesInv, StoredInv, Organized, CompactInv, FrozenLogs, UnlinkInv;
  }

  lemma StoredAdd(files: seq<File>, tables: map<nat, set<Version>>, file: File, frozen: seq<Frozen>)
    requires StoredInv(files, tables) && FlushedFile(file, frozen, tables)
    ensures StoredInv(files + [file], tables)
  {
  }

  // ---- Publication and clean-up ----

  lemma {:induction false} FrozenLogsLast(frozen: seq<Frozen>)
    requires frozen != []
    ensures FrozenLogs(frozen) == frozen[|frozen| - 1].logs + FrozenLogs(frozen[..|frozen| - 1])
  {
    var init := frozen[..|frozen| - 1];
    if |frozen| == 1 {
      assert frozen[1..] == [] && init == [];
    } else {
      var rest, last := frozen[1..], frozen[|frozen| - 1].logs;
      FrozenLogsLast(rest);
      assert rest[..|rest| - 1] == init[1..] && rest[|rest| - 1] == frozen[|frozen| - 1] && init[0] == frozen[0];
      assert FrozenLogs(frozen) == FrozenLogs(rest) + frozen[0].logs;
      assert FrozenLogs(init) == FrozenLogs(init[1..]) + init[0].logs;
      hide FrozenLogs;
      assert (last + FrozenLogs(init[1..])) + frozen[0].logs == last + (FrozenLogs(init[1..]) + frozen[0].logs);
    }
  }

  lemma TablesPublish(active: set<Version>, frozen: seq<Frozen>, cuts: seq<nat>, pending: set<Version>,
                      h: set<Version>, flushed: nat, lastSeq: nat)
    requires TablesInv(active, frozen, cuts, pending, h, flushed, lastSeq) && frozen != []
    ensures var last := |frozen| - 1;
            && TablesInv(active, frozen[..last], cuts[..last + 1], pending, h, cuts[last], lastSeq)
            && flushed <= cuts[last]
  {
    var last := |frozen| - 1;
    assert last == 0 || cuts[last] <= cuts[0];
    assert Above(h, cuts[0]) <= Above(h, cuts[last]);
  }

  lemma BoundsPublish(frozen: seq<Frozen>, cuts: seq<nat>, logs: map<nat, seq<Version>>)
    requires BoundsInv(frozen, cuts, logs) && frozen != []
    ensures var last := |frozen| - 1;
            && BoundsInv(frozen[..last], cuts[..last + 1], logs)
            && UnlinkInv(FlushUnlinking(frozen[last].logs), logs, cuts[last])
  {
  }

  lemma PublishedLevels(levels: seq<seq<File>>, before: seq<File>, file: File, next: nat)
    requires Organized(levels, before) && FreshNumber(file.number, before, next) && file.level == 0
    ensures Organized(levels[0 := [file] + levels[0]], before + [file])
  {
    FlushKeepsOrganized(levels, before, file);
  }

  lemma FlushPublishKeeps(s: State, t: State)
    requires Inv(s) && FlushPublish(s, t)
    ensures Inv(t)
  {
    hide LogsInv, SyncInv, TablesInv, ChainInv, BoundsInv, FilesInv, StoredInv, Organized, CompactInv, UnlinkInv,
        FrozenLogs, FreshNumber;
    var m := s.mem;
    FrozenLogsLast(m.frozen);
    TablesPublish(m.active, m.frozen, m.cuts, m.pending, s.trace.history, s.trace.flushed, m.lastSeq);
    BoundsPublish(m.frozen, m.cuts, s.disk.logs);
    PublishedLevels(m.levels, m.flush.before, m.flush.file, m.nextNumber);
    SameOwner(m.compact, m.flush, t.mem.flush, m.snapshot.files, m.nextNumber, s.disk.tables);
    assert LogChain(t.mem.flush, t.mem.frozen, t.mem.activeLogs, t.mem.rotating)
        == LogChain(m.flush, m.frozen, m.activeLogs, m.rotating);
    assert t.mem.activeLogs == m.activeLogs;
  }

  /** Deleting the oldest log moves the base up to the end of what it held. */
  lemma LogsUnlink(logs: map<nat, seq<Version>>, h: set<Version>, base: nat, n: nat)
    requires LogsInv(logs, h, base) && n in logs && forall m | m in logs :: n <= m
    ensures logs[n] == [] ==> LogsInv(logs - {n}, h, base)
    ensures logs[n] != [] ==>
              && base < logs[n][|logs[n]| - 1].seqno
              && LogsInv(logs - {n}, h, logs[n][|logs[n]| - 1].seqno)
  {
    hide Rising, Precedes, Recorded;
    var after: map<nat, seq<Version>> := logs - {n};
    if logs[n] != [] {
      var last := logs[n][|logs[n]| - 1];
      IsRecorded(logs, n, last);
      forall v | v in Recorded(logs)
        ensures v.seqno > last.seqno <==> v in Recorded(after)
      {
        RecordSide(logs, n, v);
      }
      FewerRecorded(logs, n);
      assert Recorded(after) == Above(h, last.seqno);
    } else {
      FewerRecorded(logs, n);
    }
  }

  lemma IsRecorded(logs: map<nat, seq<Version>>, n: nat, v: Version)
    requires n in logs && v in logs[n]
    ensures v in Recorded(logs)
  {
  }

  lemma FewerRecorded(logs: map<nat, seq<Version>>, n: nat)
    requires n in logs
    ensures Recorded(logs - {n}) <= Recorded(logs) && (logs[n] == [] ==> Recorded(logs - {n}) == Recorded(logs))
  {
    var after: map<nat, seq<Version>> := logs - {n};
    forall v | v in Recorded(logs) && logs[n] == []
      ensures v in Recorded(after)
    {
      var m :| m in logs && v in logs[m];
      assert m in after && v in after[m];
    }
  }

  lemma RecordSide(logs: map<nat, seq<Version>>, n: nat, v: Version)
    requires n in logs && logs[n] != [] && Rising(logs[n]) && v in Recorded(logs)
    requires forall m | m in logs && m != n :: Precedes(logs[n], logs[m])
    ensures v.seqno > logs[n][|logs[n]| - 1].seqno <==> v in Recorded(logs - {n})
  {
    var last := logs[n][|logs[n]| - 1];
    assert last in logs[n];
    var m :| m in logs && v in logs[m];
    if m == n {
      var i :| 0 <= i < |logs[n]| && logs[n][i] == v;
      assert i == |logs[n]| - 1 || v.seqno < last.seqno;
      forall k | k in logs && k != n
        ensures v !in logs[k]
      {
        assert Precedes(logs[n], logs[k]);
      }
    } else {
      assert Precedes(logs[n], logs[m]);
      assert m in logs - {n} && v in (logs - {n})[m];
    }
  }

  lemma ChainHead(chain: seq<nat>, logs: set<nat>)
    requires ChainInv(chain, logs) && chain != []
    ensures chain[0] in logs && forall m | m in logs :: chain[0] <= m
    ensures ChainInv(chain[1..], logs - {chain[0]})
  {
    forall m | m in logs
      ensures chain[0] <= m && (m != chain[0] ==> m in chain[1..])
    {
      var i :| 0 <= i < |chain| && chain[i] == m;
      if i > 0 {
        assert chain[1..][i - 1] == m;
      }
    }
    forall m | m in chain[1..]
      ensures m in logs - {chain[0]}
    {
      var i :| 0 <= i < |chain[1..]| && chain[1..][i] == m;
      assert chain[i + 1] == m && chain[0] < chain[i + 1];
    }
  }

  lemma UnlinkRest(s: State, n: nat)
    requires s.Up? && s.mem.activeLogs != [] && n != CurrentLog(s.mem) && n in s.disk.logs
    requires s.mem.flush.FlushUnlinking? && s.mem.flush.logs != []
    requires SyncInv(s.disk.logs, s.disk.synced, CurrentLog(s.mem), s.mem.pending)
    requires BoundsInv(s.mem.frozen, s.mem.cuts, s.disk.logs) && UnlinkInv(s.mem.flush, s.disk.logs, s.trace.flushed)
    ensures SyncInv(s.disk.logs - {n}, s.disk.synced - {n}, CurrentLog(s.mem), s.mem.pending)
    ensures BoundsInv(s.mem.frozen, s.mem.cuts, s.disk.logs - {n})
    ensures UnlinkInv(FlushUnlinking(s.mem.flush.logs[1..]), s.disk.logs - {n}, s.trace.flushed)
  {
  }

  lemma FlushUnlinkKeeps(s: State, t: State)
    requires Inv(s) && FlushUnlink(s, t)
    ensures Inv(t)
  {
    hide WriteInv, FileSideInv;
    FlushUnlinkWrites(s, t);
    FlushUnlinkFiles(s, t);
  }

  lemma FlushUnlinkFiles(s: State, t: State)
    requires s.Up? && FileSideInv(s.disk, s.mem, s.trace) && FlushUnlink(s, t)
    ensures FileSideInv(t.disk, t.mem, t.trace)
  {
    hide FilesInv, StoredInv, Organized, CompactInv, NumbersInv;
    var m := s.mem;
    var n := m.flush.logs[0];
    FewerLogs(s.disk.logs.Keys, s.disk.tables.Keys, s.disk.partials, m.nextNumber, n);
    SameOwner(m.compact, m.flush, t.mem.flush, m.snapshot.files, m.nextNumber, s.disk.tables);
    assert t.disk.logs.Keys == s.disk.logs.Keys - {n};
  }

  lemma FlushUnlinkWrites(s: State, t: State)
    requires s.Up? && WriteInv(s.disk, s.mem, s.trace) && FlushUnlink(s, t)
    ensures WriteInv(t.disk, t.mem, t.trace)
  {
    hide LogsInv, SyncInv, TablesInv, ChainInv, BoundsInv, FrozenLogs, UnlinkInv, LogChain;
    var m := s.mem;
    var n := m.flush.logs[0];
    var chain := LogChain(m.flush, m.frozen, m.activeLogs, m.rotating);
    ChainTail(m.flush.logs, m.frozen, m.activeLogs, m.rotating);
    ChainHead(chain, s.disk.logs.Keys);
    OlderLogs(m.flush, m.frozen, m.activeLogs, m.rotating, s.disk.logs.Keys, n);
    LogsUnlink(s.disk.logs, s.trace.history, s.trace.base, n);
    UnlinkBound(m.flush, s.disk.logs, s.trace.flushed);
    UnlinkRest(s, n);
    assert t.disk.logs.Keys == s.disk.logs.Keys - {n};
    RotationOther(m.flush, m.frozen, m.activeLogs, m.rotating, s.disk.logs.Keys, n);
    assert t.mem.activeLogs == m.activeLogs;
  }

  lemma ChainTail(logs: seq<nat>, frozen: seq<Frozen>, activeLogs: seq<nat>, rotating: Option<nat>)
    requires logs != []
    ensures var chain := LogChain(FlushUnlinking(logs), frozen, activeLogs, rotating);
            && chain != [] && chain[0] == logs[0]
            && LogChain(FlushUnlinking(logs[1..]), frozen, activeLogs, rotating) == chain[1..]
  {
  }

  lemma FewerLogs(logs: set<nat>, tables: set<nat>, partials: set<nat>, next: nat, n: nat)
    requires NumbersInv(logs, tables, partials, next)
    ensures NumbersInv(logs - {n}, tables, partials, next)
  {
  }

  lemma UnlinkBound(flush: Flush, logs: map<nat, seq<Version>>, flushed: nat)
    requires UnlinkInv(flush, logs, flushed) && flush.FlushUnlinking? && flush.logs != [] && flush.logs[0] in logs
    ensures logs[flush.logs[0]] != [] ==> logs[flush.logs[0]][|logs[flush.logs[0]]| - 1].seqno <= flushed
  {
  }

  lemma RotationOther(flush: Flush, frozen: seq<Frozen>, activeLogs: seq<nat>, rotating: Option<nat>, logs: set<nat>,
                      n: nat)
    requires activeLogs != [] && ChainInv(LogChain(flush, frozen, activeLogs, rotating), logs)
    requires flush.FlushUnlinking? && n in flush.logs
    ensures rotating.Some? ==> rotating.value != n
  {
    var chain := LogChain(flush, frozen, activeLogs, rotating);
    var i :| 0 <= i < |flush.logs| && flush.logs[i] == n;
    assert chain[i] == n;
    assert rotating.Some? ==> chain[|chain| - 1] == rotating.value;
  }

  lemma FlushDoneKeeps(s: State, t: State)
    requires Inv(s) && FlushDone(s, t)
    ensures Inv(t)
  {
    hide LogsInv, SyncInv, TablesInv, ChainInv, BoundsInv, FilesInv, StoredInv, Organized, CompactInv, FrozenLogs;
    SameOwner(s.mem.compact, s.mem.flush, t.mem.flush, s.mem.snapshot.files, s.mem.nextNumber, s.disk.tables);
    assert LogChain(t.mem.flush, t.mem.frozen, t.mem.activeLogs, t.mem.rotating)
        == LogChain(s.mem.flush, s.mem.frozen, s.mem.activeLogs, s.mem.rotating);
    assert t.mem.activeLogs == s.mem.activeLogs;
  }
}
