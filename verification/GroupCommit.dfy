/**
 * Group commit: any number of threads append to one log and share its flushes. Each lock, each write, each flush and
 * each test of a shared flag is one step, and writes and flushes may fail.
 */
module GroupCommit {
  import opened Bounds
  import opened Keys
  import opened Versions
  import opened WalRecord

  const MAX_PENDING_BYTES: nat := 64 * 1024

  datatype Policy = Always | Group | Interval

  /**
   * Where a thread stands. `appends` tells a sync that ends an append from one asked for on its own. A round is the
   * stretch during which a thread writes and flushes for everybody.
   */
  datatype Pc =
    | Idle
    | Wanting(v: Version)
    | Encode(v: Version)
    | Write(seqno: nat)
    | Flush(seqno: nat)
    | Syncing(seqno: nat, appends: bool)
    | Deciding(seqno: nat, appends: bool, again: bool)
    | Waiting(seqno: nat, appends: bool)
    | Round(seqno: nat, appends: bool)
    | RoundWrite(seqno: nat, appends: bool)
    | RoundFlush(seqno: nat, appends: bool, target: nat)
    | RoundDone(seqno: nat, appends: bool, flushed: Option<nat>)
    | RoundEnd(seqno: nat, appends: bool, flushed: Option<nat>)

  predicate HoldsAppend(pc: Pc) {
    pc.Encode? || pc.Write? || pc.Flush? || pc.RoundWrite?
  }

  predicate HoldsSync(pc: Pc) {
    pc.Deciding? || pc.RoundEnd?
  }

  predicate InRound(pc: Pc) {
    pc.Round? || pc.RoundWrite? || pc.RoundFlush? || pc.RoundDone? || pc.RoundEnd?
  }

  /** The fields behind the two locks and the atomics. */
  datatype Shared = Shared(
    file: Bytes, buf: Bytes, written: nat, lastSeq: nat,
    durable: nat, inProgress: bool, failed: bool,
    appendLock: Option<nat>, syncLock: Option<nat>)

  /**
   * With what has happened: the file and the number the log was opened with, every record encoded since, what the
   * device holds for certain, the number its last flush covered, and the numbers appends returned.
   */
  datatype State = State(
    policy: Policy, sh: Shared, threads: map<nat, Pc>,
    start: Bytes, base: nat, records: seq<Version>,
    device: Bytes, synced: nat, acked: set<nat>)

  ghost predicate At(s: State, t: nat) {
    t in s.threads
  }

  ghost function Goto(s: State, t: nat, pc: Pc): State {
    s.(threads := s.threads[t := pc])
  }

  /** The thread returns; an append that succeeded acknowledges its number. */
  ghost function Returns(s: State, t: nat, acks: bool, seqno: nat): State {
    s.(threads := s.threads[t := Idle], acked := if acks then s.acked + {seqno} else s.acked)
  }

  // ---- Append ----

  /** The failed flag is tested before the append lock is asked for. */
  ghost predicate StartAppend(s: State, t: nat, s': State, v: Version) {
    && At(s, t) && s.threads[t].Idle? && !s.sh.failed
    && s' == Goto(s, t, Wanting(v))
  }

  ghost predicate LockAppend(s: State, t: nat, s': State) {
    && At(s, t) && s.sh.appendLock.None?
    && ((s.threads[t].Wanting? && s' == Goto(s, t, Encode(s.threads[t].v)).(sh := s.sh.(appendLock := Some(t))))
        || (&& s.threads[t].Round?
            && s' == Goto(s, t, RoundWrite(s.threads[t].seqno, s.threads[t].appends)).(
                       sh := s.sh.(appendLock := Some(t)))))
  }

  /** Once encoded, `Always` writes at once, the others when the buffer is full; then `Group` waits for a flush. */
  ghost predicate EncodeRecord(s: State, t: nat, s': State) {
    && At(s, t) && s.threads[t].Encode?
    && var v := s.threads[t].v.(seqno := s.sh.lastSeq + 1);
    && if !Encodable(v) then
         s' == Returns(s, t, false, 0).(sh := s.sh.(appendLock := None))
       else
         var buf := s.sh.buf + Encoding(v);
         var next := s.(sh := s.sh.(buf := buf, lastSeq := v.seqno), records := s.records + [v]);
         if s.policy.Always? || |buf| >= MAX_PENDING_BYTES then
           s' == Goto(next, t, Write(v.seqno))
         else
           s' == Unlocked(next, t, v.seqno)
  }

  /** Past the append lock: `Group` goes on to sync, the others return. */
  ghost function Unlocked(s: State, t: nat, seqno: nat): State {
    var free := s.(sh := s.sh.(appendLock := None));
    if s.policy.Group? then Goto(free, t, Syncing(seqno, true)) else Returns(free, t, s.policy.Always?, seqno)
  }

  /** The buffer reaches the file; a failure leaves some of it there, and drops the rest. */
  ghost predicate WritesBuffer(sh: Shared, sh': Shared, ok: bool, taken: nat) {
    if sh.buf == [] then ok && sh' == sh
    else if ok then sh' == sh.(file := sh.file + sh.buf, buf := [], written := sh.lastSeq)
    else taken < |sh.buf| && sh' == sh.(file := sh.file + sh.buf[..taken], buf := [], failed := true)
  }

  ghost predicate WriteRecord(s: State, t: nat, s': State, sh: Shared, ok: bool, taken: nat) {
    && At(s, t) && s.threads[t].Write? && WritesBuffer(s.sh, sh, ok, taken)
    && var next := s.(sh := sh);
    && if !ok then s' == Returns(next, t, false, 0).(sh := sh.(appendLock := None))
       else if s.policy.Always? then s' == Goto(next, t, Flush(s.threads[t].seqno))
       else s' == Unlocked(next, t, s.threads[t].seqno)
  }

  /** A flush covers whatever the file holds. */
  ghost function Flushed(s: State): State {
    s.(device := s.sh.file, synced := s.sh.written)
  }

  ghost predicate FlushRecord(s: State, t: nat, s': State, ok: bool) {
    && At(s, t) && s.threads[t].Flush?
    && if ok then s' == Unlocked(Flushed(s), t, s.threads[t].seqno)
       else s' == Returns(s, t, false, 0).(sh := s.sh.(appendLock := None))
  }

  // ---- Sync ----

  ghost predicate StartSync(s: State, t: nat, s': State) {
    && At(s, t) && s.threads[t].Idle?
    && s' == Goto(s, t, Syncing(s.sh.lastSeq, false))
  }

  ghost predicate LockSync(s: State, t: nat, s': State) {
    && At(s, t) && s.sh.syncLock.None?
    && var pc := s.threads[t];
    && ((pc.Syncing? && s' == Goto(s, t, Deciding(pc.seqno, pc.appends, false)).(sh := s.sh.(syncLock := Some(t))))
        || (&& pc.RoundDone?
            && s' == Goto(s, t, RoundEnd(pc.seqno, pc.appends, pc.flushed)).(sh := s.sh.(syncLock := Some(t)))))
  }

  ghost predicate Decide(s: State, t: nat, s': State) {
    && At(s, t) && s.threads[t].Deciding?
    && var pc := s.threads[t];
    && var free := s.(sh := s.sh.(syncLock := None));
    && if s.sh.durable >= pc.seqno then s' == Returns(free, t, pc.appends, pc.seqno)
       else if s.sh.failed then s' == Returns(free, t, false, 0)
       else if s.sh.inProgress then s' == Goto(free, t, Waiting(pc.seqno, pc.appends))
       else s' == Goto(free, t, Round(pc.seqno, pc.appends)).(sh := free.sh.(inProgress := true))
  }

  ghost predicate WriteRound(s: State, t: nat, s': State, sh: Shared, ok: bool, taken: nat) {
    && At(s, t) && s.threads[t].RoundWrite? && WritesBuffer(s.sh, sh, ok, taken)
    && var pc := s.threads[t];
    && var next := s.(sh := sh.(appendLock := None));
    && if ok then s' == Goto(next, t, RoundFlush(pc.seqno, pc.appends, sh.written))
       else s' == Goto(next, t, RoundDone(pc.seqno, pc.appends, None))
  }

  ghost predicate FlushRound(s: State, t: nat, s': State, ok: bool) {
    && At(s, t) && s.threads[t].RoundFlush?
    && var pc := s.threads[t];
    && if ok then s' == Goto(Flushed(s), t, RoundDone(pc.seqno, pc.appends, Some(pc.target)))
       else s' == Goto(s, t, RoundDone(pc.seqno, pc.appends, None))
  }

  /** Everyone waiting is woken, to ask for the sync lock again. */
  function Notified(threads: map<nat, Pc>): map<nat, Pc> {
    map t | t in threads :: if threads[t].Waiting? then Syncing(threads[t].seqno, threads[t].appends) else threads[t]
  }

  ghost predicate EndRound(s: State, t: nat, s': State) {
    && At(s, t) && s.threads[t].RoundEnd?
    && var pc := s.threads[t];
    && var woken := s.(threads := Notified(s.threads));
    && match pc.flushed
       case Some(target) =>
         s' == Goto(woken, t, Deciding(pc.seqno, pc.appends, true)).(
                 sh := s.sh.(inProgress := false, durable := Max(s.sh.durable, target)))
       case None =>
         s' == Goto(woken, t, Idle).(sh := s.sh.(inProgress := false, syncLock := None))
  }

  /** A condition variable may wake a thread for no reason. */
  ghost predicate WakeUp(s: State, t: nat, s': State) {
    && At(s, t) && s.threads[t].Waiting?
    && s' == Goto(s, t, Syncing(s.threads[t].seqno, s.threads[t].appends))
  }

  datatype Step =
    | DoStartAppend(v: Version) | DoLockAppend | DoEncode
    | DoWrite(sh: Shared, ok: bool, taken: nat) | DoFlush(ok: bool)
    | DoStartSync | DoLockSync | DoDecide | DoWriteRound(sh: Shared, ok: bool, taken: nat) | DoFlushRound(ok: bool)
    | DoEndRound | DoWakeUp

  ghost predicate Takes(s: State, t: nat, s': State, step: Step) {
    match step
    case DoStartAppend(v) => StartAppend(s, t, s', v)
    case DoLockAppend => LockAppend(s, t, s')
    case DoEncode => EncodeRecord(s, t, s')
    case DoWrite(sh, ok, taken) => WriteRecord(s, t, s', sh, ok, taken)
    case DoFlush(ok) => FlushRecord(s, t, s', ok)
    case DoStartSync => StartSync(s, t, s')
    case DoLockSync => LockSync(s, t, s')
    case DoDecide => Decide(s, t, s')
    case DoWriteRound(sh, ok, taken) => WriteRound(s, t, s', sh, ok, taken)
    case DoFlushRound(ok) => FlushRound(s, t, s', ok)
    case DoEndRound => EndRound(s, t, s')
    case DoWakeUp => WakeUp(s, t, s')
  }

  /** A log just opened: everything in its file is on the device. */
  ghost predicate Initial(s: State) {
    && (forall t | t in s.threads :: s.threads[t] == Idle)
    && s.sh == Shared(s.start, [], s.base, s.base, s.base, false, false, None, None)
    && s.records == [] && s.device == s.start && s.synced == s.base && s.acked == {}
  }

  ghost predicate Run(states: seq<State>, steps: seq<(nat, Step)>) {
    && |states| == |steps| + 1 && Initial(states[0])
    && forall i | 0 <= i < |steps| :: Takes(states[i], steps[i].0, states[i + 1], steps[i].1)
  }
}
