/**
 * The store's crash, down to the bytes of its log files: what a group-commit log leaves behind is a crash the store
 * survives.
 */
module StoreBytes {
  import opened Keys
  import opened Versions
  import opened WalRecord
  import opened WalReplay
  import opened Store
  import opened StoreInvariant
  import opened StoreRecovery
  import G = GroupCommit
  import S = GroupCommitSafety
  import D = GroupCommitDamage

  /** The bytes a crash may leave of a log of which `flushed` records had reached the device. */
  ghost predicate Leaves(log: seq<Version>, flushed: nat, image: Bytes) {
    && flushed <= |log| && image <= Log(log)
    && (flushed > 0 ==> Log(log[..flushed]) <= image)
  }

  ghost predicate LeavesAll(disk: Disk, images: map<nat, Bytes>) {
    && images.Keys == disk.logs.Keys
    && forall n | n in disk.logs :: n in disk.synced && Leaves(disk.logs[n], disk.synced[n], images[n])
  }

  ghost predicate AllWritable(disk: Disk) {
    forall n | n in disk.logs :: Writable(disk.logs[n])
  }

  /** The records read back from a log file. */
  ghost function Reread(image: Bytes): seq<Version> {
    var r := Recovery(image, 0);
    if r.Some? then r.value.records else []
  }

  ghost function RereadAll(images: map<nat, Bytes>): map<nat, seq<Version>> {
    map n | n in images :: Reread(images[n])
  }

  /** What is read back is a prefix of the log, no shorter than what was flushed, and all the file then holds. */
  lemma RereadKeeps(log: seq<Version>, flushed: nat, image: Bytes)
    requires Writable(log) && Leaves(log, flushed, image)
    ensures Reread(image) <= log && flushed <= |Reread(image)|
    ensures Recovery(image, 0).Some? && Recovery(image, 0).value.file == Log(Reread(image))
  {
    hide Log, Recovery, Writable, Highest, Flat, FitWhole;
    D.LogLength(log);
    if |image| < FILE_HEADER_LEN {
      D.LogLength(log[..flushed]);
      assert image == Log(log)[..|image|];
      CutLogRecovers(log, |image|, 0, 0);
      assert log[..0] == [];
    } else if flushed > 0 {
      var fit := D.CutKeeps(log, flushed, image, 0);
    } else {
      var fit := SomeFit(log, |image| - FILE_HEADER_LEN);
      FitsSome(log, |image| - FILE_HEADER_LEN, fit);
      assert image == Log(log)[..|image|];
      CutLogRecovers(log, |image|, fit, 0);
    }
  }

  /** Bytes a crash may leave are a crash of the store, after which its logs hold exactly what is read back. */
  lemma ByteCrashIsCrash(s: State, images: map<nat, Bytes>) returns (t: State)
    requires (s.Up? || s.Opening?) && AllWritable(s.disk) && LeavesAll(s.disk, images)
    ensures Crash(s, t) && t.disk.logs == RereadAll(images)
    ensures forall n | n in images ::
              Recovery(images[n], 0).Some? && Recovery(images[n], 0).value.file == Log(t.disk.logs[n])
  {
    hide Log, Recovery, Reread, Leaves, Writable, Mark, Recorded;
    var logs := RereadAll(images);
    var synced := map n | n in images :: |Reread(images[n])|;
    var disk := s.disk.(logs := logs, synced := synced);
    forall n | n in images
      ensures Reread(images[n]) <= s.disk.logs[n] && n in s.disk.synced && s.disk.synced[n] <= |Reread(images[n])|
      ensures Recovery(images[n], 0).Some? && Recovery(images[n], 0).value.file == Log(Reread(images[n]))
    {
      RereadKeeps(s.disk.logs[n], s.disk.synced[n], images[n]);
    }
    assert Truncated(s.disk, disk);
    var flushed := if s.Up? then Mark(s.mem, s.trace.flushed) else s.trace.flushed;
    t := Down(disk, s.trace.(history := s.trace.history - (Recorded(s.disk.logs) - Recorded(logs)),
                             flushed := flushed));
  }

  /**
   * A run stopped by a crash, down to the bytes of its logs: reading them back gives a state the run reaches, whose
   * history is a prefix, in sequence order, that holds every acknowledged write.
   */
  lemma ByteCrashKeepsAcknowledged(states: seq<State>, steps: seq<Step>, images: map<nat, Bytes>)
      returns (t: State, p: nat)
    requires Run(states, steps) && states[|steps|].Up?
    requires AllWritable(states[|steps|].disk) && LeavesAll(states[|steps|].disk, images)
    ensures Run(states + [t], steps + [DoCrash]) && t.Down? && t.disk.logs == RereadAll(images)
    ensures var s := states[|steps|]; t.trace.history == UpTo(s.trace.history, p) && s.trace.acked <= t.trace.history
  {
    hide Takes, Crash, Inv, LeavesAll, AllWritable, RereadAll, UpTo;
    var s := states[|steps|];
    t := ByteCrashIsCrash(s, images);
    IsCrashStep(s, t);
    var longer, more := states + [t], steps + [DoCrash];
    assert Run(longer, more);
    assert longer[|steps|] == s && longer[|steps| + 1] == t && more[|steps|] == DoCrash;
    p := CrashKeepsAcknowledgedPrefix(longer, more, |steps|);
  }

  lemma IsCrashStep(s: State, t: State)
    requires Crash(s, t)
    ensures Takes(s, t, DoCrash) && t.Down?
  {
    hide Truncated, Mark, Recorded;
  }

  /** A log written by group commit, at any moment before a write fails. */
  ghost function LogOf(before: seq<Version>, g: G.State): seq<Version> {
    before + g.records
  }

  ghost function FlushedOf(before: seq<Version>, g: G.State): int {
    |before| + (g.synced - g.base)
  }

  /** An append that returned: its record is among those flushed. */
  ghost predicate IsFlushed(before: seq<Version>, g: G.State, n: nat)
    requires 0 <= FlushedOf(before, g) <= |LogOf(before, g)|
  {
    && g.base < n <= g.base + |g.records| && g.records[n - g.base - 1].seqno == n
    && g.records[n - g.base - 1] in LogOf(before, g)[..FlushedOf(before, g)]
  }

  lemma AckedIsFlushed(before: seq<Version>, g: G.State, n: nat)
    requires S.Inv(g) && n in g.acked
    ensures 0 <= FlushedOf(before, g) <= |LogOf(before, g)| && IsFlushed(before, g, n)
  {
    hide S.Inv, S.First, Flat, Encodable;
    D.Numbers(g);
    assert LogOf(before, g)[..FlushedOf(before, g)][|before| + (n - g.base - 1)] == g.records[n - g.base - 1];
  }

  /** Device and file of a log no write of which has failed, as logs of whole records. */
  lemma LogFiles(before: seq<Version>, g: G.State)
    requires S.Inv(g) && !g.sh.failed && g.start == Log(before)
    ensures 0 <= FlushedOf(before, g) <= |LogOf(before, g)|
    ensures g.device == Log(LogOf(before, g)[..FlushedOf(before, g)]) && g.sh.file <= Log(LogOf(before, g))
  {
    hide S.Inv, S.First, Flat, Log, Encodable;
    D.Numbers(g);
    D.FirstIsLog(before, g, g.synced);
    D.FirstIsLog(before, g, g.sh.written);
    var w := g.sh.written - g.base;
    D.LogPrefix(before, g.records, w);
    assert LogOf(before, g)[..FlushedOf(before, g)] == before + g.records[..g.synced - g.base];
  }

  /** Whatever a crash leaves of a group-commit log is what the store's crash allows for its current log. */
  lemma LogLeaves(before: seq<Version>, g: G.State, left: Bytes)
    requires S.Inv(g) && !g.sh.failed && g.start == Log(before) && g.device <= left <= g.sh.file
    ensures 0 <= FlushedOf(before, g) <= |LogOf(before, g)| && Leaves(LogOf(before, g), FlushedOf(before, g), left)
  {
    hide S.Inv, Log, LogOf, FlushedOf;
    LogFiles(before, g);
    FileWithin(left, g.sh.file, Log(LogOf(before, g)));
  }

  /**
   * The same at any moment of a run, and an append that returned is one the store may make visible: its record is
   * among those flushed.
   */
  lemma GroupCommitLeaves(states: seq<G.State>, steps: seq<(nat, G.Step)>, i: nat, before: seq<Version>, left: Bytes)
    requires G.Run(states, steps) && i < |states| && !states[i].sh.failed && states[i].start == Log(before)
    requires states[i].device <= left <= states[i].sh.file
    ensures var g := states[i];
            && 0 <= FlushedOf(before, g) <= |LogOf(before, g)| && Leaves(LogOf(before, g), FlushedOf(before, g), left)
            && forall n | n in g.acked :: IsFlushed(before, g, n)
  {
    hide Log, LogOf, FlushedOf, S.Inv, G.Run, Leaves, IsFlushed;
    S.RunHolds(states, steps, i);
    LogLeaves(before, states[i], left);
    forall n | n in states[i].acked
      ensures IsFlushed(before, states[i], n)
    {
      AckedIsFlushed(before, states[i], n);
    }
  }

  lemma FileWithin(a: Bytes, b: Bytes, c: Bytes)
    requires a <= b && b <= c
    ensures a <= c
  {
  }

  /** The log files after a crash: all of every log but the current one, of which `left` remains. */
  ghost function ImagesOf(disk: Disk, current: nat, left: Bytes): map<nat, Bytes> {
    map n | n in disk.logs :: if n == current then left else Log(disk.logs[n])
  }

  /** The store's current log is the one group commit has written, flushed as far. */
  ghost predicate WrittenBy(s: State, before: seq<Version>, g: G.State)
    requires s.Up?
  {
    && s.mem.activeLogs != [] && CurrentLog(s.mem) in s.disk.logs && CurrentLog(s.mem) in s.disk.synced
    && s.disk.logs[CurrentLog(s.mem)] == LogOf(before, g) && s.disk.synced[CurrentLog(s.mem)] == FlushedOf(before, g)
  }

  lemma GroupCommitImages(s: State, before: seq<Version>, g: G.State, left: Bytes)
    requires s.Up? && Inv(s) && WrittenBy(s, before, g) && Leaves(LogOf(before, g), FlushedOf(before, g), left)
    ensures LeavesAll(s.disk, ImagesOf(s.disk, CurrentLog(s.mem), left))
  {
    hide Inv, Log, LogOf, FlushedOf, Leaves;
    SyncedWithin(s);
    var images := ImagesOf(s.disk, CurrentLog(s.mem), left);
    forall n | n in s.disk.logs
      ensures n in s.disk.synced && Leaves(s.disk.logs[n], s.disk.synced[n], images[n])
    {
      if n != CurrentLog(s.mem) {
        WholeLogStays(s.disk.logs[n], s.disk.synced[n]);
      }
    }
  }

  lemma WholeLogStays(log: seq<Version>, flushed: nat)
    requires flushed <= |log|
    ensures Leaves(log, flushed, Log(log))
  {
    hide Log;
    D.LogPrefix([], log, flushed);
    assert [] + log == log && [] + log[..flushed] == log[..flushed];
  }

  lemma SyncedWithin(s: State)
    requires s.Up? && Inv(s)
    ensures forall n | n in s.disk.logs :: n in s.disk.synced && s.disk.synced[n] <= |s.disk.logs[n]|
  {
    hide LogsInv, HistoryInv, TablesInv, ChainInv, BoundsInv, UnlinkInv, FilesInv, StoredInv, FlushInv, CompactInv,
        LogChain;
  }

  lemma FlushedRecord(before: seq<Version>, g: G.State, n: nat)
    requires 0 <= FlushedOf(before, g) <= |LogOf(before, g)| && IsFlushed(before, g, n)
    ensures g.base < n <= g.base + |g.records| && g.records[n - g.base - 1].seqno == n
    ensures g.records[n - g.base - 1] in LogOf(before, g)[..FlushedOf(before, g)]
  {
    hide LogOf, FlushedOf;
  }

  lemma CurrentImage(s: State, before: seq<Version>, g: G.State, left: Bytes)
    requires s.Up? && WrittenBy(s, before, g) && AllWritable(s.disk)
    ensures s.mem.activeLogs != [] && Writable(LogOf(before, g))
    ensures var all := RereadAll(ImagesOf(s.disk, CurrentLog(s.mem), left));
            CurrentLog(s.mem) in all && all[CurrentLog(s.mem)] == Reread(left)
  {
    hide Writable, Log, LogOf, FlushedOf, Reread;
  }

  lemma InLonger(log: seq<Version>, flushed: nat, kept: seq<Version>, v: Version)
    requires kept <= log && flushed <= |kept| && v in log[..flushed]
    ensures v in kept
  {
    var i :| 0 <= i < flushed && log[..flushed][i] == v;
    assert kept[i] == v;
  }
}
