/**
 * The store as a state machine that may stop between any two file-system steps.
 *
 * Writers, one flush and one compaction interleave; a crash keeps the disk, less any suffix of the records
 * of the current log that were not yet on the device.
 */
module Store {
  import opened Bounds
  import opened Versions
  import opened Files
  import opened Compaction
  import opened Levels
  import opened EngineState

  /** Log records are whole here: the log module shows that a torn record reads as absent. */
  datatype Disk = Disk(
    logs: map<nat, seq<Version>>,
    synced: map<nat, nat>,
    tables: map<nat, set<Version>>,
    partials: set<nat>,
    manifest: Option<Snapshot>)

  /** How far the background flush of the oldest frozen table has come. */
  datatype Flush =
    | NoFlush
    | FlushWriting(number: nat)
    | FlushRenamed(file: File)
    | FlushStamped(file: File, stamp: nat)
    | FlushCommitted(file: File, before: seq<File>)
    | FlushUnlinking(logs: seq<nat>)

  /** How far a compaction has come, with the file set it was planned on. */
  datatype Compact =
    | NoCompact
    | CompactMerging(planned: seq<File>, level: nat, outs: seq<File>, writing: Option<nat>)
    | CompactStamped(planned: seq<File>, level: nat, outs: seq<File>, stamp: nat)
    | CompactCommitted(removed: seq<nat>, level: nat, outs: seq<File>, before: seq<File>)
    | CompactUnlinking(removed: seq<nat>)

  /** What an open store holds in memory. `cuts` records where each table's sequence numbers start. */
  datatype Memory = Memory(
    active: set<Version>,
    activeLogs: seq<nat>,
    frozen: seq<Frozen>,
    levels: seq<seq<File>>,
    lastSeq: nat,
    snapshot: Snapshot,
    nextNumber: nat,
    pending: set<Version>,
    rotating: Option<nat>,
    flush: Flush,
    compact: Compact,
    cuts: seq<nat>)

  /**
   * What has happened: the writes appended and still part of the store's past, the acknowledged ones, the
   * sequence number up to which the files in use answer, and the one past which the logs hold everything.
   */
  datatype Trace = Trace(history: set<Version>, acked: set<Version>, flushed: nat, base: nat)

  datatype State =
    | Up(disk: Disk, mem: Memory, trace: Trace)
    | Opening(disk: Disk, trace: Trace, scanned: nat)
    | Down(disk: Disk, trace: Trace)

  ghost function UpTo(h: set<Version>, n: nat): set<Version> {
    set v | v in h && v.seqno <= n
  }

  ghost function Above(h: set<Version>, n: nat): set<Version> {
    set v | v in h && v.seqno > n
  }

  ghost function Between(h: set<Version>, low: nat, high: nat): set<Version> {
    set v | v in h && low < v.seqno <= high
  }

  /** Every record any log holds. */
  ghost function Recorded(logs: map<nat, seq<Version>>): set<Version> {
    set n, v | n in logs && v in logs[n] :: v
  }

  ghost function CurrentLog(mem: Memory): nat
    requires mem.activeLogs != []
  {
    mem.activeLogs[|mem.activeLogs| - 1]
  }

  function EmptySnapshot(): Snapshot {
    Snapshot([], 0, 0)
  }

  function Manifest(disk: Disk): Snapshot {
    if disk.manifest.Some? then disk.manifest.value else EmptySnapshot()
  }

  // ---- Steps of an open store ----

  /** A writer appends a record to the current log; the log hands out the sequence number. */
  ghost predicate Append(s: State, t: State, v: Version) {
    && s.Up? && s.mem.rotating.None? && s.mem.activeLogs != [] && CurrentLog(s.mem) in s.disk.logs
    && v.seqno == s.mem.lastSeq + 1
    && var n := CurrentLog(s.mem);
    && t == Up(s.disk.(logs := s.disk.logs[n := s.disk.logs[n] + [v]]),
               s.mem.(lastSeq := v.seqno, pending := s.mem.pending + {v}),
               s.trace.(history := s.trace.history + {v}))
  }

  /** A device flush carries more records of the current log to the device. */
  ghost predicate Sync(s: State, t: State, count: nat) {
    && s.Up? && s.mem.activeLogs != [] && CurrentLog(s.mem) in s.disk.logs && CurrentLog(s.mem) in s.disk.synced
    && var n := CurrentLog(s.mem);
    && s.disk.synced[n] <= count <= |s.disk.logs[n]|
    && t == Up(s.disk.(synced := s.disk.synced[n := count]),
               s.mem,
               s.trace)
  }

  /** The append returned, so its record is on the device; it becomes visible and is acknowledged. */
  ghost predicate Insert(s: State, t: State, v: Version) {
    && s.Up? && s.mem.activeLogs != [] && CurrentLog(s.mem) in s.disk.logs && CurrentLog(s.mem) in s.disk.synced
    && var n := CurrentLog(s.mem);
    && v in s.mem.pending
    && s.disk.synced[n] <= |s.disk.logs[n]| && v in s.disk.logs[n][..s.disk.synced[n]]
    && t == Up(s.disk,
               s.mem.(active := s.mem.active + {v}, pending := s.mem.pending - {v}),
               s.trace.(acked := s.trace.acked + {v}))
  }

  /** A rotation holds the log exclusively, so no writer is between its append and its insert. */
  ghost predicate RotateCreate(s: State, t: State) {
    && s.Up? && s.mem.rotating.None? && s.mem.pending == {} && s.mem.active != {}
    && var n := s.mem.nextNumber;
    && t == Up(s.disk.(logs := s.disk.logs[n := []], synced := s.disk.synced[n := 0]),
               s.mem.(nextNumber := n + 1, rotating := Some(n)),
               s.trace)
  }

  ghost predicate RotateSwap(s: State, t: State) {
    && s.Up? && s.mem.rotating.Some?
    && t == Up(s.disk,
               s.mem.(
                 active := {},
                 activeLogs := [s.mem.rotating.value],
                 frozen := [Frozen(s.mem.active, s.mem.activeLogs)] + s.mem.frozen,
                 rotating := None,
                 cuts := [s.mem.lastSeq] + s.mem.cuts),
               s.trace)
  }

  ghost predicate FlushStart(s: State, t: State) {
    && s.Up? && s.mem.flush.NoFlush? && s.mem.frozen != []
    && var n := s.mem.nextNumber;
    && t == Up(s.disk.(partials := s.disk.partials + {n}),
               s.mem.(nextNumber := n + 1, flush := FlushWriting(n)),
               s.trace)
  }

  /** The complete table takes its final name. */
  ghost predicate FlushRename(s: State, t: State, file: File) {
    && s.Up? && s.mem.flush.FlushWriting? && s.mem.frozen != []
    && file.number == s.mem.flush.number && file.level == 0 && file.WellFormed()
    && file.content == Reduce(s.mem.frozen[|s.mem.frozen| - 1].table)
    && t == Up(s.disk.(tables := s.disk.tables[file.number := file.content],
                               partials := s.disk.partials - {file.number}),
               s.mem.(flush := FlushRenamed(file)),
               s.trace)
  }

  /** A commit first reads the last sequence number, which needs no rotation under way. */
  ghost predicate FlushStamp(s: State, t: State) {
    && s.Up? && s.mem.flush.FlushRenamed? && s.mem.rotating.None?
    && t == Up(s.disk,
               s.mem.(flush := FlushStamped(s.mem.flush.file, s.mem.lastSeq)),
               s.trace)
  }

  /** The manifest is replaced atomically; the lock on it is held until the change is published. */
  ghost predicate FlushCommit(s: State, t: State) {
    && s.Up? && s.mem.flush.FlushStamped? && !s.mem.compact.CompactCommitted?
    && var file := s.mem.flush.file;
    && var was := s.mem.snapshot;
    && var now := Snapshot(was.files + [file], Max(was.lastSeq, s.mem.flush.stamp), s.mem.nextNumber);
    && t == Up(s.disk.(manifest := Some(now)),
               s.mem.(snapshot := now, flush := FlushCommitted(file, was.files)),
               s.trace)
  }

  ghost predicate FlushPublish(s: State, t: State) {
    && s.Up? && s.mem.flush.FlushCommitted? && s.mem.frozen != [] && s.mem.levels != []
    && |s.mem.cuts| == |s.mem.frozen| + 1
    && var last := |s.mem.frozen| - 1;
    && t == Up(s.disk,
               s.mem.(
                 levels := s.mem.levels[0 := [s.mem.flush.file] + s.mem.levels[0]],
                 frozen := s.mem.frozen[..last],
                 flush := FlushUnlinking(s.mem.frozen[last].logs),
                 cuts := s.mem.cuts[..last + 1]),
               s.trace.(flushed := s.mem.cuts[last]))
  }

  /** The logs the file replaced are deleted one by one, oldest first. */
  ghost predicate FlushUnlink(s: State, t: State) {
    && s.Up? && s.mem.flush.FlushUnlinking? && s.mem.flush.logs != []
    && var n := s.mem.flush.logs[0];
    && n in s.disk.logs
    && t == Up(s.disk.(logs := s.disk.logs - {n}, synced := s.disk.synced - {n}),
               s.mem.(flush := FlushUnlinking(s.mem.flush.logs[1..])),
               s.trace.(base := if s.disk.logs[n] == [] then s.trace.base
                                         else s.disk.logs[n][|s.disk.logs[n]| - 1].seqno))
  }

  ghost predicate FlushDone(s: State, t: State) {
    && s.Up? && s.mem.flush.FlushUnlinking? && s.mem.flush.logs == []
    && t == Up(s.disk,
               s.mem.(flush := NoFlush),
               s.trace)
  }

  /** A compaction of some level is planned on the file set as it stands. */
  ghost predicate CompactPlan(s: State, t: State, level: nat) {
    && s.Up? && s.mem.compact.NoCompact? && !s.mem.flush.FlushCommitted?
    && UpperInputs(s.mem.snapshot.files, level) != []
    && t == Up(s.disk,
               s.mem.(compact := CompactMerging(s.mem.snapshot.files, level, [], None)),
               s.trace)
  }

  ghost predicate CompactOpen(s: State, t: State) {
    && s.Up? && s.mem.compact.CompactMerging? && s.mem.compact.writing.None?
    && var n := s.mem.nextNumber;
    && t == Up(s.disk.(partials := s.disk.partials + {n}),
               s.mem.(nextNumber := n + 1, compact := s.mem.compact.(writing := Some(n))),
               s.trace)
  }

  ghost predicate CompactSeal(s: State, t: State, file: File) {
    && s.Up? && s.mem.compact.CompactMerging? && s.mem.compact.writing == Some(file.number)
    && t == Up(s.disk.(tables := s.disk.tables[file.number := file.content],
                               partials := s.disk.partials - {file.number}),
               s.mem.(compact := s.mem.compact.(outs := s.mem.compact.outs + [file], writing := None)),
               s.trace)
  }

  /** The merge ran dry: the outputs are the surviving entries, cut in key order. */
  ghost predicate CompactStamp(s: State, t: State) {
    && s.Up? && s.mem.compact.CompactMerging? && s.mem.compact.writing.None? && s.mem.rotating.None?
    && var c := s.mem.compact;
    && CutInto(c.outs, Survivors(c.planned, InputsFor(c.planned, c.level), c.level + 1), c.level + 1)
    && t == Up(s.disk,
               s.mem.(compact := CompactStamped(c.planned, c.level, c.outs, s.mem.lastSeq)),
               s.trace)
  }

  ghost predicate CompactCommit(s: State, t: State) {
    && s.Up? && s.mem.compact.CompactStamped? && !s.mem.flush.FlushCommitted?
    && var c := s.mem.compact;
    && var was := s.mem.snapshot;
    && var inputs := InputsFor(c.planned, c.level);
    && var now := Snapshot(Replaced(was.files, inputs, c.outs), Max(was.lastSeq, c.stamp), s.mem.nextNumber);
    && t == Up(s.disk.(manifest := Some(now)),
               s.mem.(snapshot := now,
                             compact := CompactCommitted(Numbers(inputs), c.level + 1, c.outs, was.files)),
               s.trace)
  }

  ghost predicate CompactPublish(s: State, t: State) {
    && s.Up? && s.mem.compact.CompactCommitted?
    && var c := s.mem.compact;
    && t == Up(s.disk,
               s.mem.(
                 levels := Inserted(Removed(s.mem.levels, c.removed), c.level, c.outs),
                 compact := CompactUnlinking(c.removed)),
               s.trace)
  }

  ghost predicate CompactUnlink(s: State, t: State) {
    && s.Up? && s.mem.compact.CompactUnlinking? && s.mem.compact.removed != []
    && t == Up(s.disk.(tables := s.disk.tables - {s.mem.compact.removed[0]}),
               s.mem.(compact := CompactUnlinking(s.mem.compact.removed[1..])),
               s.trace)
  }

  ghost predicate CompactDone(s: State, t: State) {
    && s.Up? && s.mem.compact.CompactUnlinking? && s.mem.compact.removed == []
    && t == Up(s.disk,
               s.mem.(compact := NoCompact),
               s.trace)
  }

  // ---- Crash and reopen ----

  /** The sequence number up to which the files named by the manifest answer. */
  ghost function Mark(mem: Memory, flushed: nat): nat {
    if mem.flush.FlushCommitted? && |mem.cuts| == |mem.frozen| + 1 && mem.frozen != []
    then mem.cuts[|mem.frozen| - 1] else flushed
  }

  /** `after` is what is left of the logs: of each, at least the synced records, as a prefix. */
  ghost predicate Truncated(before: Disk, after: Disk) {
    && after.logs.Keys == before.logs.Keys && after.synced.Keys == before.logs.Keys
    && (forall n | n in before.logs ::
          && after.logs[n] <= before.logs[n] && after.synced[n] == |after.logs[n]|
          && n in before.synced && before.synced[n] <= |after.logs[n]|)
    && after == before.(logs := after.logs, synced := after.synced)
  }

  /** The process dies: memory is gone, and the writes whose records were lost never happened. */
  ghost predicate Crash(s: State, t: State) {
    && (s.Up? || s.Opening?)
    && t.Down? && Truncated(s.disk, t.disk)
    && t.trace == s.trace.(history := s.trace.history - (Recorded(s.disk.logs) - Recorded(t.disk.logs)),
                           flushed := if s.Up? then Mark(s.mem, s.trace.flushed) else s.trace.flushed)
  }

  /** One more than every log and complete table present. */
  ghost predicate IsScan(disk: Disk, n: nat) {
    && n > 0
    && (forall m | m in disk.logs :: m < n)
    && (forall m | m in disk.tables :: m < n)
    && (n == 1 || n - 1 in disk.logs || n - 1 in disk.tables)
  }

  ghost predicate Scan(s: State, t: State, scanned: nat) {
    && s.Down? && IsScan(s.disk, scanned)
    && t == Opening(s.disk, s.trace, scanned)
  }

  ghost predicate DropPartial(s: State, t: State, n: nat) {
    && s.Opening? && n in s.disk.partials
    && t == Opening(s.disk.(partials := s.disk.partials - {n}), s.trace, s.scanned)
  }

  /** Opening gives up on a store that holds tables but no manifest. */
  ghost predicate Refused(disk: Disk) {
    disk.manifest.None? && disk.tables != map[]
  }

  predicate Named(files: seq<File>, n: nat) {
    exists f :: f in files && f.number == n
  }

  /** A table the manifest does not name is deleted. */
  ghost predicate DropOrphan(s: State, t: State, n: nat) {
    && s.Opening? && s.disk.partials == {} && !Refused(s.disk)
    && n in s.disk.tables && !Named(Manifest(s.disk).files, n)
    && t == Opening(s.disk.(tables := s.disk.tables - {n}), s.trace, s.scanned)
  }

  /** The files as they are read back: the manifest's description with the contents found on disk. */
  ghost function Loaded(files: seq<File>, tables: map<nat, set<Version>>): seq<File>
    requires forall f | f in files :: f.number in tables
  {
    seq(|files|, i requires 0 <= i < |files| => files[i].(content := tables[files[i].number]))
  }

  /** The log numbers in ascending order. */
  ghost predicate Lists(numbers: seq<nat>, logs: map<nat, seq<Version>>) {
    && (forall i, j | 0 <= i < j < |numbers| :: numbers[i] < numbers[j])
    && (forall n :: n in numbers <==> n in logs)
  }

  ghost predicate IsLastSeq(n: nat, floor: nat, records: set<Version>) {
    && floor <= n && (forall v | v in records :: v.seqno <= n)
    && (n == floor || exists v :: v in records && v.seqno == n)
  }

  /** What opening can start from: no leftovers, a usable manifest, and every file it names present. */
  ghost predicate CanFinish(disk: Disk) {
    && disk.partials == {} && !Refused(disk)
    && (forall n | n in disk.tables :: Named(Manifest(disk).files, n))
    && (forall f | f in Manifest(disk).files :: f.number in disk.tables)
  }

  /** Every log rebuilds the one active table; the newest, or a fresh one, takes the next writes. */
  ghost predicate Finish(s: State, t: State, numbers: seq<nat>, lastSeq: nat) {
    && s.Opening? && CanFinish(s.disk)
    && var snapshot := Manifest(s.disk);
    && var records := Recorded(s.disk.logs);
    && var next := Max(s.scanned, snapshot.nextNumber);
    && var none := s.disk.logs == map[];
    && var files := Loaded(snapshot.files, s.disk.tables);
    && Lists(numbers, s.disk.logs) && IsLastSeq(lastSeq, snapshot.lastSeq, records)
    && t == Up(
         if none then s.disk.(logs := map[next := []], synced := map[next := 0]) else s.disk,
         Memory(records, if none then [next] else numbers, [], Opened(files), lastSeq,
                snapshot, if none then next + 1 else next, {}, None, NoFlush, NoCompact, [s.trace.base]),
         s.trace)
  }

  datatype Step =
    | DoAppend(v: Version) | DoSync(count: nat) | DoInsert(v: Version)
    | DoRotateCreate | DoRotateSwap
    | DoFlushStart | DoFlushRename(file: File) | DoFlushStamp | DoFlushCommit | DoFlushPublish
    | DoFlushUnlink | DoFlushDone
    | DoCompactPlan(level: nat) | DoCompactOpen | DoCompactSeal(file: File) | DoCompactStamp | DoCompactCommit
    | DoCompactPublish | DoCompactUnlink | DoCompactDone
    | DoCrash | DoScan(scanned: nat) | DoDropPartial(n: nat) | DoDropOrphan(n: nat)
    | DoFinish(numbers: seq<nat>, lastSeq: nat)

  ghost predicate Takes(s: State, t: State, step: Step) {
    match step
    case DoAppend(v) => Append(s, t, v)
    case DoSync(count) => Sync(s, t, count)
    case DoInsert(v) => Insert(s, t, v)
    case DoRotateCreate => RotateCreate(s, t)
    case DoRotateSwap => RotateSwap(s, t)
    case DoFlushStart => FlushStart(s, t)
    case DoFlushRename(file) => FlushRename(s, t, file)
    case DoFlushStamp => FlushStamp(s, t)
    case DoFlushCommit => FlushCommit(s, t)
    case DoFlushPublish => FlushPublish(s, t)
    case DoFlushUnlink => FlushUnlink(s, t)
    case DoFlushDone => FlushDone(s, t)
    case DoCompactPlan(level) => CompactPlan(s, t, level)
    case DoCompactOpen => CompactOpen(s, t)
    case DoCompactSeal(file) => CompactSeal(s, t, file)
    case DoCompactStamp => CompactStamp(s, t)
    case DoCompactCommit => CompactCommit(s, t)
    case DoCompactPublish => CompactPublish(s, t)
    case DoCompactUnlink => CompactUnlink(s, t)
    case DoCompactDone => CompactDone(s, t)
    case DoCrash => Crash(s, t)
    case DoScan(scanned) => Scan(s, t, scanned)
    case DoDropPartial(n) => DropPartial(s, t, n)
    case DoDropOrphan(n) => DropOrphan(s, t, n)
    case DoFinish(numbers, lastSeq) => Finish(s, t, numbers, lastSeq)
  }

  /** An empty directory. */
  function Initial(): State {
    Down(Disk(map[], map[], map[], {}, None), Trace({}, {}, 0, 0))
  }

  /** A run of the store from an empty directory. */
  ghost predicate Run(states: seq<State>, steps: seq<Step>) {
    && |states| == |steps| + 1 && states[0] == Initial()
    && forall i | 0 <= i < |steps| :: Takes(states[i], states[i + 1], steps[i])
  }
}
