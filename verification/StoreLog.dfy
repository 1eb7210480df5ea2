/**
 * The store and its group-commit log as one machine: every append of the store is a record the log encodes, every
 * record that becomes visible is one whose append returned, and a crash keeps what the log's bytes keep.
 */
module StoreLog {
  import opened Bounds
  import opened Keys
  import opened Versions
  import opened WalRecord
  import opened WalReplay
  import opened Compaction
  import opened Levels
  import opened Store
  import opened StoreInvariant
  import opened StoreSafety
  import opened StoreRecovery
  import opened StoreBytes
  import G = GroupCommit
  import S = GroupCommitSafety
  import D = GroupCommitDamage

  /** `before` is what the current log held when it was opened; `log` means nothing while the store is not up. */
  datatype Joint = Joint(store: State, log: G.State, before: seq<Version>)

  ghost function Appended(s: State, v: Version): State
    requires s.Up? && s.mem.activeLogs != [] && CurrentLog(s.mem) in s.disk.logs
  {
    var n := CurrentLog(s.mem);
    Up(s.disk.(logs := s.disk.logs[n := s.disk.logs[n] + [v]]),
       s.mem.(lastSeq := v.seqno, pending := s.mem.pending + {v}),
       s.trace.(history := s.trace.history + {v}))
  }

  ghost function FlushedTo(s: State, count: nat): State
    requires s.Up? && s.mem.activeLogs != []
  {
    Up(s.disk.(synced := s.disk.synced[CurrentLog(s.mem) := count]), s.mem, s.trace)
  }

  /** Writes and flushes succeed, and sequence numbers stay within their 64 bits. */
  ghost predicate Succeeds(step: G.Step, log: G.State) {
    && (step.DoWrite? || step.DoWriteRound? || step.DoFlush? || step.DoFlushRound? ==> step.ok)
    && (step.DoEncode? ==> log.sh.lastSeq < U64_MAX)
  }

  /** Nobody is inside the log. */
  ghost predicate Quiet(log: G.State) {
    forall t | t in log.threads :: log.threads[t].Idle?
  }

  /** A thread's step inside the log: a record it encodes is the store's append, and a flush is the store's flush. */
  ghost predicate LogMoves(p: Joint, q: Joint, t: nat, step: G.Step) {
    && p.store.Up? && p.store.mem.activeLogs != [] && CurrentLog(p.store.mem) in p.store.disk.logs
    && (p.store.mem.rotating.Some? ==> !step.DoStartAppend? && !step.DoEncode?)
    && G.Takes(p.log, t, q.log, step) && Succeeds(step, p.log) && q.before == p.before
    && FlushedOf(p.before, q.log) >= 0
    && q.store == if |q.log.records| > |p.log.records| then Appended(p.store, q.log.records[|q.log.records| - 1])
                  else FlushedTo(p.store, FlushedOf(p.before, q.log))
  }

  /** A write whose append returned becomes visible. */
  ghost predicate Applies(p: Joint, q: Joint, v: Version) {
    && p.store.Up? && v in p.store.mem.pending && v.seqno in p.log.acked
    && q == p.(store := p.store.(
                 mem := p.store.mem.(active := p.store.mem.active + {v}, pending := p.store.mem.pending - {v}),
                 trace := p.store.trace.(acked := p.store.trace.acked + {v})))
  }

  /** A step of the store that does not concern the current log. */
  predicate Aside(step: Step) {
    && !step.DoAppend? && !step.DoSync? && !step.DoInsert? && !step.DoRotateSwap? && !step.DoCrash? && !step.DoFinish?
  }

  ghost predicate MovesAside(p: Joint, q: Joint, step: Step) {
    && Aside(step) && Takes(p.store, q.store, step) && q.log == p.log && q.before == p.before
    && (step.DoRotateCreate? ==> Quiet(p.log))
  }

  /** A log just opened on the store's current log file. */
  ghost predicate OpensLog(q: Joint) {
    && q.store.Up? && q.store.mem.activeLogs != [] && CurrentLog(q.store.mem) in q.store.disk.logs
    && q.before == q.store.disk.logs[CurrentLog(q.store.mem)]
    && G.Initial(q.log) && q.log.start == Log(q.before) && q.log.base == q.store.mem.lastSeq
  }

  ghost predicate Rotates(p: Joint, q: Joint) {
    Takes(p.store, q.store, DoRotateSwap) && OpensLog(q)
  }

  ghost predicate Opens(p: Joint, q: Joint, numbers: seq<nat>, lastSeq: nat) {
    Takes(p.store, q.store, DoFinish(numbers, lastSeq)) && OpensLog(q)
  }

  /** The process dies: of the current log some bytes behind the last flush survive, of the others everything. */
  ghost predicate Dies(p: Joint, q: Joint, left: Bytes) {
    && p.store.Up? && p.store.mem.activeLogs != [] && q.store.Down?
    && p.log.device <= left <= p.log.sh.file
    && q.store.disk == AfterCrash(p.store.disk, CurrentLog(p.store.mem), left)
    && q.store.trace == p.store.trace.(
                          history := p.store.trace.history
                                     - (Recorded(p.store.disk.logs) - Recorded(q.store.disk.logs)),
                          flushed := Mark(p.store.mem, p.store.trace.flushed))
  }

  /** The disk with every log as it is read back. */
  ghost function AfterCrash(disk: Disk, current: nat, left: Bytes): Disk {
    var logs := RereadAll(ImagesOf(disk, current, left));
    disk.(logs := logs, synced := map n | n in logs :: |logs[n]|)
  }

  /** A crash while opening: nothing is being written. */
  ghost predicate DiesOpening(p: Joint, q: Joint) {
    p.store.Opening? && Takes(p.store, q.store, DoCrash)
  }

  datatype Move =
    | InLog(t: nat, step: G.Step) | Apply(v: Version) | Beside(side: Step) | Rotate
    | Open(numbers: seq<nat>, lastSeq: nat) | Die(left: Bytes) | DieOpening

  ghost predicate Makes(p: Joint, q: Joint, move: Move) {
    match move
    case InLog(t, step) => LogMoves(p, q, t, step)
    case Apply(v) => Applies(p, q, v)
    case Beside(step) => MovesAside(p, q, step)
    case Rotate => Rotates(p, q)
    case Open(numbers, lastSeq) => Opens(p, q, numbers, lastSeq)
    case Die(left) => Dies(p, q, left)
    case DieOpening => DiesOpening(p, q)
  }

  ghost predicate JointRun(joints: seq<Joint>, moves: seq<Move>) {
    && |joints| == |moves| + 1 && joints[0].store == Initial()
    && forall i | 0 <= i < |moves| :: Makes(joints[i], joints[i + 1], moves[i])
  }

  // ---- What both keep together ----

  ghost predicate LogInv(p: Joint)
    requires p.store.Up?
  {
    && S.Inv(p.log) && !p.log.sh.failed && p.log.start == Log(p.before)
    && WrittenBy(p.store, p.before, p.log) && p.log.sh.lastSeq == p.store.mem.lastSeq
  }

  ghost predicate JointInv(p: Joint) {
    Inv(p.store) && AllWritable(p.store.disk) && (p.store.Up? ==> LogInv(p))
  }

  /** The store's step each move stands for. */
  ghost function Shadow(p: Joint, q: Joint, move: Move): Step {
    match move
    case InLog(t, step) =>
      if |q.log.records| > |p.log.records| then DoAppend(q.log.records[|q.log.records| - 1])
      else DoSync(if FlushedOf(p.before, q.log) >= 0 then FlushedOf(p.before, q.log) else 0)
    case Apply(v) => DoInsert(v)
    case Beside(step) => step
    case Rotate => DoRotateSwap
    case Open(numbers, lastSeq) => DoFinish(numbers, lastSeq)
    case Die(left) => DoCrash
    case DieOpening => DoCrash
  }

  // ---- Steps inside the log ----

  lemma OnlyEncodesAppend(s: G.State, t: nat, s': G.State, step: G.Step)
    requires G.Takes(s, t, s', step)
    ensures |s'.records| > |s.records| ==> step.DoEncode?
  {
    hide Encodable, Encoding;
  }

  /** What a step that succeeds does to records, flush mark and flag. */
  lemma LogStep(s: G.State, t: nat, s': G.State, step: G.Step)
    requires S.Inv(s) && !s.sh.failed && G.Takes(s, t, s', step) && Succeeds(step, s)
    ensures S.Inv(s') && !s'.sh.failed && s'.start == s.start && s'.base == s.base
    ensures s.base <= s.synced <= s'.synced <= s'.sh.lastSeq == s'.base + |s'.records|
    ensures |s'.records| > |s.records| ==>
              && step.DoEncode? && s'.records == s.records + [s'.records[|s.records|]] && s'.synced == s.synced
              && s'.records[|s.records|].seqno == s'.sh.lastSeq == s.sh.lastSeq + 1
              && Encodable(s'.records[|s.records|])
    ensures |s'.records| <= |s.records| ==> s'.records == s.records
  {
    hide S.Inv, G.Takes, S.Effect, Encodable, Encoding, S.First, Flat;
    S.StepKeeps(s, t, s', step);
    D.Numbers(s);
    D.Numbers(s');
    OnlyEncodesAppend(s, t, s', step);
    var what := S.StepStores(s, t, s', step);
  }

  lemma LogParts(p: Joint)
    requires p.store.Up? && LogInv(p)
    ensures S.Inv(p.log) && !p.log.sh.failed && p.log.start == Log(p.before)
    ensures WrittenBy(p.store, p.before, p.log) && p.log.sh.lastSeq == p.store.mem.lastSeq
    ensures p.log.sh.lastSeq == p.log.base + |p.log.records| && p.log.base <= p.log.synced
  {
    hide S.Inv, Log, WrittenBy, S.First, Flat, Encodable;
    D.Numbers(p.log);
  }

  lemma AppendFollows(p: Joint, q: Joint, t: nat, step: G.Step)
    requires JointInv(p) && LogMoves(p, q, t, step) && |q.log.records| > |p.log.records|
    ensures Append(p.store, q.store, q.log.records[|q.log.records| - 1])
    ensures LogInv(q) && AllWritable(q.store.disk)
  {
    hide Inv, S.Inv, G.Takes, Log, Encodable, LogInv;
    LogParts(p);
    LogStep(p.log, t, q.log, step);
    var v := q.log.records[|p.log.records|];
    assert p.before + (p.log.records + [v]) == p.before + p.log.records + [v];
    LogAgain(q);
  }

  lemma LogAgain(q: Joint)
    requires q.store.Up? && S.Inv(q.log) && !q.log.sh.failed && q.log.start == Log(q.before)
    requires WrittenBy(q.store, q.before, q.log) && q.log.sh.lastSeq == q.store.mem.lastSeq
    ensures LogInv(q)
  {
    hide S.Inv, Log, WrittenBy;
  }

  lemma SyncFollows(p: Joint, q: Joint, t: nat, step: G.Step)
    requires JointInv(p) && LogMoves(p, q, t, step) && |q.log.records| <= |p.log.records|
    ensures Sync(p.store, q.store, FlushedOf(p.before, q.log))
    ensures LogInv(q) && AllWritable(q.store.disk)
  {
    hide Inv, S.Inv, G.Takes, Log, Encodable, LogInv, Writable;
    LogParts(p);
    LogStep(p.log, t, q.log, step);
    LogAgain(q);
  }

  // ---- Inserts ----

  lemma HistoryParts(s: State)
    requires s.Up? && Inv(s)
    ensures Distinct(s.trace.history) && s.mem.pending <= s.trace.history && Recorded(s.disk.logs) <= s.trace.history
  {
    hide SyncInv, ChainInv, BoundsInv, UnlinkInv, RotationInv, FileSideInv, Rising, Precedes;
  }

  lemma IsRecorded(logs: map<nat, seq<Version>>, n: nat, v: Version)
    requires n in logs && v in logs[n]
    ensures v in Recorded(logs)
  {
  }

  lemma InsertFollows(p: Joint, q: Joint, v: Version)
    requires JointInv(p) && Applies(p, q, v)
    ensures Insert(p.store, q.store, v) && LogInv(q) && AllWritable(q.store.disk)
  {
    hide Inv, S.Inv, Log, LogInv, Writable, Recorded, IsFlushed;
    LogParts(p);
    HistoryParts(p.store);
    AckedIsFlushed(p.before, p.log, v.seqno);
    FlushedRecord(p.before, p.log, v.seqno);
    var n, r := CurrentLog(p.store.mem), p.log.records[v.seqno - p.log.base - 1];
    FlushedIsHeld(p.store.disk.logs[n], p.store.disk.synced[n], r);
    IsRecorded(p.store.disk.logs, n, r);
    LogAgain(q);
  }

  lemma FlushedIsHeld(log: seq<Version>, count: nat, r: Version)
    requires count <= |log| && r in log[..count]
    ensures r in log
  {
  }

  // ---- Steps of the store beside the log ----

  lemma AsideKeepsLog(s: State, t: State, step: Step)
    requires s.Up? && Inv(s) && Inv(t) && Takes(s, t, step) && Aside(step)
    ensures t.Up? && t.mem.activeLogs == s.mem.activeLogs && t.mem.lastSeq == s.mem.lastSeq && s.mem.activeLogs != []
    ensures var n := CurrentLog(s.mem);
            && n in s.disk.logs && n in s.disk.synced && n in t.disk.logs && n in t.disk.synced
            && t.disk.logs[n] == s.disk.logs[n] && t.disk.synced[n] == s.disk.synced[n]
  {
    hide Inv, CutInto, Survivors, InputsFor, Replaced, Removed, Inserted, Opened, Recorded;
    CurrentStands(s);
    if step.DoFlushUnlink? {
      CurrentStands(t);
    }
  }

  lemma CurrentStands(s: State)
    requires s.Up? && Inv(s)
    ensures s.mem.activeLogs != [] && CurrentLog(s.mem) in s.disk.logs && CurrentLog(s.mem) in s.disk.synced
    ensures CurrentLog(s.mem) < s.mem.nextNumber
  {
    hide LogsInv, HistoryInv, TablesInv, ChainInv, BoundsInv, UnlinkInv, RotationInv, FilesInv, StoredInv, Organized,
         FlushInv, CompactInv, StampInv, SnapshotInv;
  }

  lemma AsideKeepsRecords(s: State, t: State, step: Step)
    requires Takes(s, t, step) && Aside(step) && AllWritable(s.disk)
    ensures AllWritable(t.disk)
  {
    hide Writable, CutInto, Survivors, InputsFor, Replaced, Removed, Inserted, Opened, Recorded;
    NothingWritable();
  }

  lemma NothingWritable()
    ensures Writable([])
  {
  }

  lemma AsideFollows(p: Joint, q: Joint, step: Step)
    requires JointInv(p) && MovesAside(p, q, step) && Inv(q.store)
    ensures AllWritable(q.store.disk) && (q.store.Up? ==> LogInv(q))
  {
    hide Inv, S.Inv, Log, LogInv, AllWritable, Takes;
    AsideKeepsRecords(p.store, q.store, step);
    if p.store.Up? {
      LogParts(p);
      AsideKeepsLog(p.store, q.store, step);
      LogAgain(q);
    } else {
      StaysDown(p.store, q.store, step);
    }
  }

  lemma StaysDown(s: State, t: State, step: Step)
    requires Takes(s, t, step) && Aside(step) && !s.Up?
    ensures !t.Up?
  {
    hide CutInto, Survivors, InputsFor, Replaced, Removed, Inserted, Opened, Recorded;
  }

  // ---- A log opened afresh ----

  lemma OpenedFollows(q: Joint)
    requires Inv(q.store) && OpensLog(q) && q.store.disk.synced[CurrentLog(q.store.mem)] == |q.before|
    requires CurrentLog(q.store.mem) in q.store.disk.synced
    ensures LogInv(q)
  {
    hide Inv, S.Inv, Log, LogInv;
    S.InitialHolds(q.log);
    assert q.before + [] == q.before;
    LogAgain(q);
  }

  lemma RotateFollows(p: Joint, q: Joint)
    requires JointInv(p) && Rotates(p, q) && Inv(q.store)
    ensures AllWritable(q.store.disk) && LogInv(q)
  {
    hide Inv, LogInv, G.Initial, Log, AllWritable;
    RotatedLog(p.store);
    OpenedFollows(q);
  }

  lemma RotatedLog(s: State)
    requires s.Up? && Inv(s) && s.mem.rotating.Some?
    ensures var n := s.mem.rotating.value;
            n in s.disk.logs && s.disk.logs[n] == [] && n in s.disk.synced && s.disk.synced[n] == 0
  {
    hide LogsInv, HistoryInv, TablesInv, ChainInv, BoundsInv, UnlinkInv, FileSideInv;
  }

  lemma FinishFollows(p: Joint, q: Joint, numbers: seq<nat>, lastSeq: nat)
    requires JointInv(p) && Opens(p, q, numbers, lastSeq) && Inv(q.store)
    ensures AllWritable(q.store.disk) && LogInv(q)
  {
    hide Inv, LogInv, G.Initial, Log, Recorded, Loaded, Lists, IsLastSeq, Writable;
    OpeningIsSynced(p.store);
    NothingWritable();
    CurrentStands(q.store);
    OpenedFollows(q);
  }

  lemma OpeningIsSynced(s: State)
    requires s.Opening? && Inv(s)
    ensures s.disk.synced.Keys == s.disk.logs.Keys
    ensures forall n | n in s.disk.logs :: s.disk.synced[n] == |s.disk.logs[n]|
  {
    hide LogsInv, HistoryInv, FilesInv, StoredInv;
  }

  // ---- Crashes ----

  lemma DieFollows(p: Joint, q: Joint, left: Bytes)
    requires JointInv(p) && Dies(p, q, left)
    ensures Crash(p.store, q.store) && AllWritable(q.store.disk)
  {
    hide Inv, S.Inv, Log, LogInv, AllWritable, LeavesAll, ImagesOf, RereadAll, Recorded, Mark, WrittenBy, LogOf,
        FlushedOf;
    LogParts(p);
    LogLeaves(p.before, p.log, left);
    GroupCommitImages(p.store, p.before, p.log, left);
    var images := ImagesOf(p.store.disk, CurrentLog(p.store.mem), left);
    var t := ByteCrashIsCrash(p.store, images);
    SameCrash(p.store, t, q.store, images);
    CutIsWritable(p.store, t);
  }

  lemma SameCrash(s: State, t: State, q: State, images: map<nat, Bytes>)
    requires s.Up? && Crash(s, t) && t.disk.logs == RereadAll(images) && q.Down?
    requires q.disk == s.disk.(logs := t.disk.logs, synced := map n | n in t.disk.logs :: |t.disk.logs[n]|)
    requires q.trace == s.trace.(history := s.trace.history - (Recorded(s.disk.logs) - Recorded(t.disk.logs)),
                                 flushed := Mark(s.mem, s.trace.flushed))
    ensures q == t
  {
    hide RereadAll, Recorded, Mark;
    assert q.disk.synced == t.disk.synced;
  }

  lemma CutIsWritable(s: State, t: State)
    requires Crash(s, t) && AllWritable(s.disk)
    ensures AllWritable(t.disk)
  {
    hide Recorded, Mark;
    forall n | n in t.disk.logs
      ensures Writable(t.disk.logs[n])
    {
      PrefixWritable(t.disk.logs[n], s.disk.logs[n]);
    }
  }

  lemma PrefixWritable(a: seq<Version>, b: seq<Version>)
    requires a <= b && Writable(b)
    ensures Writable(a)
  {
    assert forall v | v in a :: v in b;
  }

  // ---- Whole runs ----

  /** Every move of the joint machine is a step of the store, and keeps both in step. */
  lemma MoveFollows(p: Joint, q: Joint, move: Move)
    requires JointInv(p) && Makes(p, q, move)
    ensures Takes(p.store, q.store, Shadow(p, q, move)) && JointInv(q)
  {
    hide Inv, LogInv, AllWritable, LogMoves, Applies, MovesAside, Rotates, Opens, Dies, DiesOpening, FlushedOf;
    MoveTakes(p, q, move);
    StepKeeps(p.store, q.store, Shadow(p, q, move));
    match move {
      case InLog(t, step) =>
        if |q.log.records| > |p.log.records| {
          AppendFollows(p, q, t, step);
        } else {
          SyncFollows(p, q, t, step);
        }
      case Apply(v) => InsertFollows(p, q, v);
      case Beside(step) => AsideFollows(p, q, step);
      case Rotate => RotateFollows(p, q);
      case Open(numbers, lastSeq) => FinishFollows(p, q, numbers, lastSeq);
      case Die(left) => DieFollows(p, q, left);
      case DieOpening => DieOpeningFollows(p, q);
    }
    JointAgain(p, q, move);
  }

  lemma MoveTakes(p: Joint, q: Joint, move: Move)
    requires JointInv(p) && Makes(p, q, move)
    ensures Takes(p.store, q.store, Shadow(p, q, move))
  {
    hide JointInv, LogInv, LogMoves, Applies, Append, Sync, Insert, Crash, FlushedOf, AfterCrash, Dies, OpensLog,
         RotateSwap, Finish;
    match move {
      case InLog(t, step) =>
        MovesForward(p, q, t, step);
        if |q.log.records| > |p.log.records| {
          AppendFollows(p, q, t, step);
        } else {
          SyncFollows(p, q, t, step);
        }
      case Apply(v) => InsertFollows(p, q, v);
      case Die(left) => DieFollows(p, q, left);
      case _ =>
    }
  }

  lemma MovesForward(p: Joint, q: Joint, t: nat, step: G.Step)
    requires LogMoves(p, q, t, step)
    ensures FlushedOf(p.before, q.log) >= 0
  {
    hide G.Takes, Appended, FlushedTo;
  }

  lemma DieOpeningFollows(p: Joint, q: Joint)
    requires JointInv(p) && DiesOpening(p, q)
    ensures AllWritable(q.store.disk)
  {
    hide Inv, LogInv, AllWritable, Crash;
    CutIsWritable(p.store, q.store);
  }

  lemma JointAgain(p: Joint, q: Joint, move: Move)
    requires Makes(p, q, move) && Inv(q.store) && AllWritable(q.store.disk)
    requires !move.Die? && !move.DieOpening? && q.store.Up? ==> LogInv(q)
    ensures JointInv(q)
  {
    hide Inv, LogInv, AllWritable, LogMoves, Applies, MovesAside, Rotates, Opens;
    if move.DieOpening? {
      CrashIsDown(p.store, q.store);
    }
  }

  lemma CrashIsDown(s: State, t: State)
    requires Takes(s, t, DoCrash)
    ensures t.Down?
  {
    hide Truncated, Recorded, Mark;
  }

  lemma {:induction false} JointHolds(joints: seq<Joint>, moves: seq<Move>, i: nat)
    requires JointRun(joints, moves) && i < |joints|
    ensures JointInv(joints[i])
  {
    hide JointInv, Makes;
    if i == 0 {
      StartsEmpty(joints[0]);
    } else {
      JointHolds(joints, moves, i - 1);
      MoveFollows(joints[i - 1], joints[i], moves[i - 1]);
    }
  }

  lemma StartsEmpty(p: Joint)
    requires p.store == Initial()
    ensures JointInv(p)
  {
    hide Inv;
    InitialHolds();
  }

  ghost function Stores(joints: seq<Joint>): seq<State> {
    seq(|joints|, i requires 0 <= i < |joints| => joints[i].store)
  }

  ghost function Shadows(joints: seq<Joint>, moves: seq<Move>): seq<Step>
    requires |joints| == |moves| + 1
  {
    seq(|moves|, i requires 0 <= i < |moves| => Shadow(joints[i], joints[i + 1], moves[i]))
  }

  /** The store's side of every joint run is a run of the store, so all that holds of those holds here. */
  lemma JointRunsAreStoreRuns(joints: seq<Joint>, moves: seq<Move>)
    requires JointRun(joints, moves)
    ensures Run(Stores(joints), Shadows(joints, moves))
  {
    hide JointInv, Makes, Takes, Shadow;
    forall i | 0 <= i < |moves|
      ensures Takes(Stores(joints)[i], Stores(joints)[i + 1], Shadows(joints, moves)[i])
    {
      JointHolds(joints, moves, i);
      MoveFollows(joints[i], joints[i + 1], moves[i]);
    }
  }

  /**
   * A crash anywhere in a joint run, with whatever bytes of the current log survive: the history left is a prefix in
   * sequence order, and it holds every write the store acknowledged and every append the log returned.
   */
  lemma CrashKeepsReturned(joints: seq<Joint>, moves: seq<Move>, i: nat) returns (last: nat)
    requires JointRun(joints, moves) && i < |moves| && moves[i].Die?
    ensures var p, q := joints[i], joints[i + 1];
            && q.store.trace.history == UpTo(p.store.trace.history, last)
               && p.store.trace.acked <= q.store.trace.history
            && forall n | n in p.log.acked :: exists v :: v in q.store.trace.history && v.seqno == n
  {
    hide JointInv, Makes, Run, UpTo;
    var p, q := joints[i], joints[i + 1];
    JointRunsAreStoreRuns(joints, moves);
    JointHolds(joints, moves, i);
    assert Stores(joints)[i] == p.store && Stores(joints)[i + 1] == q.store;
    assert Shadows(joints, moves)[i] == DoCrash;
    last := CrashKeepsAcknowledgedPrefix(Stores(joints), Shadows(joints, moves), i);
    forall n | n in p.log.acked
      ensures exists v :: v in q.store.trace.history && v.seqno == n
    {
      ReturnedIsKept(p, q, moves[i].left, n);
    }
  }

  lemma ReturnedIsKept(p: Joint, q: Joint, left: Bytes, n: nat)
    requires JointInv(p) && Makes(p, q, Die(left)) && n in p.log.acked
    ensures exists v :: v in q.store.trace.history && v.seqno == n
  {
    hide *;
    DeathParts(p, q, left);
    LogParts(p);
    HistoryParts(p.store);
    LogLeaves(p.before, p.log, left);
    AckedIsFlushed(p.before, p.log, n);
    FlushedRecord(p.before, p.log, n);
    CurrentImage(p.store, p.before, p.log, left);
    CurrentHolds(p);
    var v := p.log.records[n - p.log.base - 1];
    RereadKeeps(LogOf(p.before, p.log), FlushedOf(p.before, p.log), left);
    InLonger(LogOf(p.before, p.log), FlushedOf(p.before, p.log), Reread(left), v);
    IsRecorded(q.store.disk.logs, CurrentLog(p.store.mem), v);
    FlushedIsHeld(LogOf(p.before, p.log), FlushedOf(p.before, p.log), v);
    IsRecorded(p.store.disk.logs, CurrentLog(p.store.mem), v);
  }

  lemma DeathParts(p: Joint, q: Joint, left: Bytes)
    requires JointInv(p) && Makes(p, q, Die(left))
    ensures p.store.Up? && Inv(p.store) && LogInv(p) && AllWritable(p.store.disk)
    ensures p.store.mem.activeLogs != [] && p.log.device <= left <= p.log.sh.file
    ensures q.store.disk.logs == RereadAll(ImagesOf(p.store.disk, CurrentLog(p.store.mem), left))
    ensures forall v | v in p.store.trace.history && v in Recorded(q.store.disk.logs) :: v in q.store.trace.history
  {
    hide Inv, LogInv, AllWritable, RereadAll, ImagesOf, Recorded, Mark;
  }

  lemma CurrentHolds(p: Joint)
    requires p.store.Up? && WrittenBy(p.store, p.before, p.log)
    ensures p.store.mem.activeLogs != [] && CurrentLog(p.store.mem) in p.store.disk.logs
    ensures p.store.disk.logs[CurrentLog(p.store.mem)] == LogOf(p.before, p.log)
  {
    hide LogOf, FlushedOf;
  }
}
