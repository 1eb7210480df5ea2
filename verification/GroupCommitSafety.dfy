/** What every interleaving of appends, syncs and flush rounds keeps. */
module GroupCommitSafety {
  import opened Bounds
  import opened Keys
  import opened Versions
  import opened Coding
  import opened WalRecord
  import opened WalReplay
  import opened GroupCommit

  // ---- Locks and rounds ----

  /** Each lock is held by the thread whose place says so. */
  ghost predicate LocksInv(threads: map<nat, Pc>, sh: Shared) {
    && (sh.appendLock.Some? ==> sh.appendLock.value in threads)
    && (sh.syncLock.Some? ==> sh.syncLock.value in threads)
    && (forall t | t in threads :: HoldsAppend(threads[t]) <==> sh.appendLock == Some(t))
    && (forall t | t in threads :: HoldsSync(threads[t]) <==> sh.syncLock == Some(t))
  }

  /** One thread at most runs a round, and nobody waits without one. */
  ghost predicate RoundInv(threads: map<nat, Pc>, inProgress: bool) {
    && (forall t, u | t in threads && u in threads && InRound(threads[t]) && InRound(threads[u]) :: t == u)
    && (forall t | t in threads && InRound(threads[t]) :: inProgress)
    && (inProgress ==> exists t :: t in threads && InRound(threads[t]))
    && (forall t | t in threads && threads[t].Waiting? :: inProgress)
  }

  // ---- Numbers ----

  ghost predicate NumbersInv(s: State) {
    && s.base <= s.sh.durable <= s.synced <= s.sh.written <= s.sh.lastSeq
    && s.sh.lastSeq == s.base + |s.records|
    && (s.sh.buf == [] ==> s.sh.written == s.sh.lastSeq || s.sh.failed)
    && (forall n | n in s.acked :: s.base < n <= s.synced)
  }

  /** A number handed out; an append's is its own, above those of the log it was opened with. */
  ghost predicate Handed(s: State, n: nat, appends: bool) {
    n <= s.sh.lastSeq && (appends ==> s.base < n)
  }

  ghost predicate ThreadInv(s: State, pc: Pc) {
    match pc
    case Write(n) => Handed(s, n, true) && n == s.sh.lastSeq && s.sh.buf != []
    case Flush(n) => Handed(s, n, true) && n <= s.sh.written && s.policy.Always?
    case Syncing(n, appends) => Handed(s, n, appends)
    case Deciding(n, appends, again) => Handed(s, n, appends) && (again ==> n <= s.sh.durable || s.sh.failed)
    case Waiting(n, appends) => Handed(s, n, appends)
    case Round(n, appends) => Handed(s, n, appends)
    case RoundWrite(n, appends) => Handed(s, n, appends)
    case RoundFlush(n, appends, target) => Handed(s, n, appends) && target <= s.sh.written
        && (n <= target || s.sh.failed)
    case RoundDone(n, appends, flushed) => Handed(s, n, appends) && Covered(s, n, flushed)
    case RoundEnd(n, appends, flushed) => Handed(s, n, appends) && Covered(s, n, flushed)
    case _ => true
  }

  ghost predicate Covered(s: State, n: nat, flushed: Option<nat>) {
    flushed.Some? ==> flushed.value <= s.synced && (n <= flushed.value || s.sh.failed)
  }

  // ---- What one step may do ----

  /** A lock goes from nobody to the thread, or from the thread to nobody, as the thread's place changes. */
  ghost predicate LockEffect(t: nat, held: bool, holds: bool, lock: Option<nat>, lock': Option<nat>) {
    if held == holds then lock' == lock
    else if holds then lock.None? && lock' == Some(t)
    else lock'.None?
  }

  ghost predicate OthersEffect(threads: map<nat, Pc>, t: nat, threads': map<nat, Pc>) {
    && t in threads && threads'.Keys == threads.Keys
    && forall u | u in threads && u != t ::
         threads'[u] == threads[u] || (threads[u].Waiting?
                                       && threads'[u] == Syncing(threads[u].seqno, threads[u].appends))
  }

  ghost predicate RoundEffect(threads: map<nat, Pc>, t: nat, threads': map<nat, Pc>, inProgress: bool,
                              inProgress': bool)
    requires t in threads && t in threads'
  {
    && (threads'[t].Waiting? ==> inProgress && !InRound(threads[t]) && inProgress')
    && if InRound(threads[t]) == InRound(threads'[t]) then inProgress' == inProgress
       else if InRound(threads'[t]) then !inProgress && inProgress'
       else !inProgress' && forall u | u in threads' :: !threads'[u].Waiting?
  }

  /**
   * Counters only grow, a failure stays, and only the holder of the append lock touches the buffer and the last
   * number.
   */
  ghost predicate NumbersEffect(s: State, t: nat, s': State) {
    && s'.policy == s.policy && s'.base == s.base && s'.start == s.start
    && s'.sh.lastSeq >= s.sh.lastSeq && s'.sh.written >= s.sh.written && s'.synced >= s.synced
       && s'.sh.durable >= s.sh.durable
    && (s.sh.failed ==> s'.sh.failed) && s.acked <= s'.acked
    && s.records <= s'.records && (s'.device == s.device || s'.device == s.sh.file)
    && ((s'.sh.lastSeq == s.sh.lastSeq && s'.sh.buf == s.sh.buf) || (t in s.threads && HoldsAppend(s.threads[t])))
  }

  ghost predicate Effect(s: State, t: nat, s': State) {
    && OthersEffect(s.threads, t, s'.threads)
    && LockEffect(t, HoldsAppend(s.threads[t]), HoldsAppend(s'.threads[t]), s.sh.appendLock, s'.sh.appendLock)
    && LockEffect(t, HoldsSync(s.threads[t]), HoldsSync(s'.threads[t]), s.sh.syncLock, s'.sh.syncLock)
    && RoundEffect(s.threads, t, s'.threads, s.sh.inProgress, s'.sh.inProgress)
    && NumbersEffect(s, t, s')
  }

  lemma StartAppendDoes(s: State, t: nat, s': State, v: Version)
    requires StartAppend(s, t, s', v) && NumbersInv(s) && ThreadInv(s, s.threads[t])
    ensures Effect(s, t, s') && NumbersInv(s') && ThreadInv(s', s'.threads[t])
  {
    hide Encodable, Encoding, Le, Payload;
  }

  lemma LockAppendDoes(s: State, t: nat, s': State)
    requires LockAppend(s, t, s') && NumbersInv(s) && ThreadInv(s, s.threads[t])
    ensures Effect(s, t, s') && NumbersInv(s') && ThreadInv(s', s'.threads[t])
  {
    hide Encodable, Encoding, Le, Payload;
  }

  lemma EncodeRecordDoes(s: State, t: nat, s': State)
    requires EncodeRecord(s, t, s') && NumbersInv(s) && ThreadInv(s, s.threads[t])
    ensures Effect(s, t, s') && NumbersInv(s') && ThreadInv(s', s'.threads[t])
  {
    hide Encodable, Encoding, Le, Payload;
    var v := s.threads[t].v.(seqno := s.sh.lastSeq + 1);
    if Encodable(v) {
      var buf := s.sh.buf + Encoding(v);
      assert |buf| > 0;
      assert s'.records == s.records + [v] && s'.sh.buf == buf && s'.sh.lastSeq == s.sh.lastSeq + 1;
      if s.policy.Always? || |buf| >= MAX_PENDING_BYTES {
        assert s'.threads == s.threads[t := Write(v.seqno)] && s'.sh.appendLock == s.sh.appendLock;
      } else if s.policy.Group? {
        assert s'.threads == s.threads[t := Syncing(v.seqno, true)];
      } else {
        assert s'.threads == s.threads[t := Idle];
      }
    } else {
      assert s'.threads == s.threads[t := Idle];
    }
  }

  lemma WriteRecordDoes(s: State, t: nat, s': State, sh: Shared, ok: bool, taken: nat)
    requires WriteRecord(s, t, s', sh, ok, taken) && NumbersInv(s) && ThreadInv(s, s.threads[t])
    ensures Effect(s, t, s') && NumbersInv(s') && ThreadInv(s', s'.threads[t])
  {
    hide Encodable, Encoding, Le, Payload;
  }

  lemma FlushRecordDoes(s: State, t: nat, s': State, ok: bool)
    requires FlushRecord(s, t, s', ok) && NumbersInv(s) && ThreadInv(s, s.threads[t])
    ensures Effect(s, t, s') && NumbersInv(s') && ThreadInv(s', s'.threads[t])
  {
    hide Encodable, Encoding, Le, Payload;
  }

  lemma StartSyncDoes(s: State, t: nat, s': State)
    requires StartSync(s, t, s') && NumbersInv(s) && ThreadInv(s, s.threads[t])
    ensures Effect(s, t, s') && NumbersInv(s') && ThreadInv(s', s'.threads[t])
  {
    hide Encodable, Encoding, Le, Payload;
  }

  lemma LockSyncDoes(s: State, t: nat, s': State)
    requires LockSync(s, t, s') && NumbersInv(s) && ThreadInv(s, s.threads[t])
    ensures Effect(s, t, s') && NumbersInv(s') && ThreadInv(s', s'.threads[t])
  {
    hide Encodable, Encoding, Le, Payload;
  }

  lemma DecideDoes(s: State, t: nat, s': State)
    requires Decide(s, t, s') && NumbersInv(s) && ThreadInv(s, s.threads[t])
    ensures Effect(s, t, s') && NumbersInv(s') && ThreadInv(s', s'.threads[t])
  {
    hide Encodable, Encoding, Le, Payload;
  }

  lemma WriteRoundDoes(s: State, t: nat, s': State, sh: Shared, ok: bool, taken: nat)
    requires WriteRound(s, t, s', sh, ok, taken) && NumbersInv(s) && ThreadInv(s, s.threads[t])
    ensures Effect(s, t, s') && NumbersInv(s') && ThreadInv(s', s'.threads[t])
  {
    hide Encodable, Encoding, Le, Payload;
  }

  lemma FlushRoundDoes(s: State, t: nat, s': State, ok: bool)
    requires FlushRound(s, t, s', ok) && NumbersInv(s) && ThreadInv(s, s.threads[t])
    ensures Effect(s, t, s') && NumbersInv(s') && ThreadInv(s', s'.threads[t])
  {
    hide Encodable, Encoding, Le, Payload;
  }

  lemma EndRoundDoes(s: State, t: nat, s': State)
    requires EndRound(s, t, s') && NumbersInv(s) && ThreadInv(s, s.threads[t])
    ensures Effect(s, t, s') && NumbersInv(s') && ThreadInv(s', s'.threads[t])
  {
    hide Encodable, Encoding, Le, Payload;
  }

  lemma WakeUpDoes(s: State, t: nat, s': State)
    requires WakeUp(s, t, s') && NumbersInv(s) && ThreadInv(s, s.threads[t])
    ensures Effect(s, t, s') && NumbersInv(s') && ThreadInv(s', s'.threads[t])
  {
    hide Encodable, Encoding, Le, Payload;
  }

  lemma StepDoes(s: State, t: nat, s': State, step: Step)
    requires Takes(s, t, s', step) && NumbersInv(s) && t in s.threads && ThreadInv(s, s.threads[t])
    ensures Effect(s, t, s') && NumbersInv(s') && ThreadInv(s', s'.threads[t])
  {
    hide StartAppend, LockAppend, EncodeRecord, WriteRecord, FlushRecord, StartSync, LockSync, Decide, WriteRound,
         FlushRound, EndRound, WakeUp, NumbersInv, ThreadInv, Effect;
    match step {
      case DoStartAppend(v) => StartAppendDoes(s, t, s', v);
      case DoLockAppend => LockAppendDoes(s, t, s');
      case DoEncode => EncodeRecordDoes(s, t, s');
      case DoWrite(sh, ok, taken) => WriteRecordDoes(s, t, s', sh, ok, taken);
      case DoFlush(ok) => FlushRecordDoes(s, t, s', ok);
      case DoStartSync => StartSyncDoes(s, t, s');
      case DoLockSync => LockSyncDoes(s, t, s');
      case DoDecide => DecideDoes(s, t, s');
      case DoWriteRound(sh, ok, taken) => WriteRoundDoes(s, t, s', sh, ok, taken);
      case DoFlushRound(ok) => FlushRoundDoes(s, t, s', ok);
      case DoEndRound => EndRoundDoes(s, t, s');
      case DoWakeUp => WakeUpDoes(s, t, s');
    }
  }

  lemma LocksKeep(s: State, t: nat, s': State)
    requires LocksInv(s.threads, s.sh) && Effect(s, t, s')
    ensures LocksInv(s'.threads, s'.sh)
  {
  }

  lemma RoundKeeps(threads: map<nat, Pc>, t: nat, threads': map<nat, Pc>, inProgress: bool, inProgress': bool)
    requires RoundInv(threads, inProgress) && OthersEffect(threads, t, threads')
    requires RoundEffect(threads, t, threads', inProgress, inProgress')
    ensures RoundInv(threads', inProgress')
  {
    if inProgress' {
      if inProgress {
        var u :| u in threads && InRound(threads[u]);
        assert InRound(threads'[u]);
      } else {
        assert InRound(threads'[t]);
      }
    }
  }

  lemma OthersKeep(s: State, t: nat, s': State, u: nat)
    requires LocksInv(s.threads, s.sh) && Effect(s, t, s') && u in s.threads && u != t && ThreadInv(s, s.threads[u])
    ensures ThreadInv(s', s'.threads[u])
  {
    if s.threads[u].Write? {
      assert s.sh.appendLock == Some(u);
    }
  }

  // ---- Bytes ----

  ghost predicate Ordered(s: State) {
    && (forall i | 0 <= i < |s.records| :: s.records[i].seqno == s.base + 1 + i && Encodable(s.records[i]))
  }

  ghost function First(s: State, n: nat): Bytes
    requires s.base <= n <= s.base + |s.records|
  {
    s.start + Flat(s.records[..n - s.base])
  }

  /** Until a write fails: the file and the device hold whole records in order, and the buffer the ones after them. */
  ghost predicate BytesInv(s: State)
    requires NumbersInv(s)
  {
    && Ordered(s)
    && s.device <= s.sh.file
    && (!s.sh.failed ==>
          && s.sh.file == First(s, s.sh.written)
          && s.sh.buf == Flat(s.records[s.sh.written - s.base..])
          && s.device == First(s, s.synced))
  }

  /** The parts of a state the bytes depend on. */
  ghost predicate SameBytes(s: State, s': State) {
    && s'.start == s.start && s'.base == s.base && s'.records == s.records && s'.device == s.device
       && s'.synced == s.synced
    && s'.sh.file == s.sh.file && s'.sh.buf == s.sh.buf && s'.sh.written == s.sh.written && s'.sh.failed == s.sh.failed
  }

  /** What a step does to the stored bytes. */
  datatype Stored = Nothing | Encoded(v: Version) | Wrote(ok: bool, taken: nat) | Synced

  ghost predicate Stores(s: State, s': State, what: Stored) {
    match what
    case Nothing => SameBytes(s, s')
    case Encoded(v) => Encodes(s, s', v)
    case Wrote(ok, taken) => Writes(s, s', ok, taken)
    case Synced => Flushes(s, s')
  }

  ghost predicate Encodes(s: State, s': State, v: Version) {
    && v.seqno == s.sh.lastSeq + 1 && Encodable(v)
    && s'.start == s.start && s'.base == s.base && s'.records == s.records + [v] && s'.device == s.device
       && s'.synced == s.synced
    && s'.sh.file == s.sh.file && s'.sh.buf == s.sh.buf + Encoding(v) && s'.sh.written == s.sh.written
    && s'.sh.failed == s.sh.failed
  }

  ghost predicate Writes(s: State, s': State, ok: bool, taken: nat) {
    && s'.start == s.start && s'.base == s.base && s'.records == s.records && s'.device == s.device
       && s'.synced == s.synced
    && s'.sh.buf == []
    && if s.sh.buf == [] then ok && SameBytes(s, s')
       else if ok then
         s'.sh.file == s.sh.file + s.sh.buf && s'.sh.written == s.sh.lastSeq && s'.sh.failed == s.sh.failed
       else
         taken < |s.sh.buf| && s'.sh.file == s.sh.file + s.sh.buf[..taken] && s'.sh.written == s.sh.written
             && s'.sh.failed
  }

  ghost predicate Flushes(s: State, s': State) {
    && s'.start == s.start && s'.base == s.base && s'.records == s.records
    && s'.device == s.sh.file && s'.synced == s.sh.written
    && s'.sh.file == s.sh.file && s'.sh.buf == s.sh.buf && s'.sh.written == s.sh.written && s'.sh.failed == s.sh.failed
  }

  ghost predicate WriteFails(step: Step) {
    (step.DoWrite? || step.DoWriteRound?) && !step.ok
  }

  lemma StepStores(s: State, t: nat, s': State, step: Step) returns (what: Stored)
    requires Takes(s, t, s', step)
    ensures Stores(s, s', what)
    ensures what.Wrote? <==> step.DoWrite? || step.DoWriteRound?
    ensures what.Wrote? ==> (what.ok <==> !WriteFails(step))
    ensures what.Synced? <==> (step.DoFlush? || step.DoFlushRound?) && step.ok
  {
    hide Encodable, Encoding, Le, Payload, HoldsAppend, HoldsSync, InRound;
    what := Nothing;
    match step {
      case DoEncode =>
        var v := s.threads[t].v.(seqno := s.sh.lastSeq + 1);
        if Encodable(v) {
          what := Encoded(v);
        }
      case DoWrite(sh, ok, taken) => what := Wrote(ok, taken);
      case DoWriteRound(sh, ok, taken) => what := Wrote(ok, taken);
      case DoFlush(ok) => what := if ok then Synced else Nothing;
      case DoFlushRound(ok) => what := if ok then Synced else Nothing;
      case _ =>
    }
  }

  lemma SameBytesKeep(s: State, s': State)
    requires NumbersInv(s) && NumbersInv(s') && BytesInv(s) && SameBytes(s, s')
    ensures BytesInv(s')
  {
    hide Flat, NumbersInv, Encodable;
  }

  lemma Extends(a: Bytes, b: Bytes, c: Bytes)
    requires a <= b
    ensures a <= b + c
  {
  }

  /** One more encoded record: the buffer grows, everything before it stands. */
  lemma EncodedBytes(s: State, s': State, v: Version)
    requires NumbersInv(s) && BytesInv(s) && NumbersInv(s') && Encodes(s, s', v)
    ensures BytesInv(s')
  {
    hide Flat, Encodable, Encoding, Le;
    var w, k := s.sh.written - s.base, s.synced - s.base;
    assert s'.records[..w] == s.records[..w] && s'.records[..k] == s.records[..k];
    assert s'.records[w..] == s.records[w..] + [v];
    FlatSplits(s.records[w..], [v]);
    OneFlat(v);
  }

  lemma WrittenBytes(s: State, s': State, ok: bool, taken: nat)
    requires NumbersInv(s) && BytesInv(s) && NumbersInv(s') && Writes(s, s', ok, taken)
    ensures BytesInv(s')
  {
    hide Flat, Encodable;
    if s.sh.buf == [] {
      SameBytesKeep(s, s');
    } else if ok {
      Extends(s.device, s.sh.file, s.sh.buf);
      if !s.sh.failed {
        AllWritten(s);
        assert s'.records[s'.sh.written - s'.base..] == [];
        NoneFits(0, 0);
      }
    } else {
      Extends(s.device, s.sh.file, s.sh.buf[..taken]);
    }
  }

  lemma AllWritten(s: State)
    requires NumbersInv(s) && BytesInv(s) && !s.sh.failed
    ensures s.sh.file + s.sh.buf == First(s, s.sh.lastSeq)
  {
    hide Flat, Encodable;
    var w := s.sh.written - s.base;
    assert s.records == s.records[..w] + s.records[w..] && s.records[..|s.records|] == s.records;
    FlatSplits(s.records[..w], s.records[w..]);
    Associates(s.start, Flat(s.records[..w]), Flat(s.records[w..]));
  }

  lemma FlushedBytes(s: State, s': State)
    requires NumbersInv(s) && BytesInv(s) && NumbersInv(s') && Flushes(s, s')
    ensures BytesInv(s')
  {
    hide Flat, Encodable;
  }

  lemma BytesKeep(s: State, t: nat, s': State, step: Step)
    requires Takes(s, t, s', step) && NumbersInv(s) && NumbersInv(s') && BytesInv(s)
    ensures BytesInv(s')
  {
    hide BytesInv, NumbersInv, Takes, SameBytes, Encodes, Writes, Flushes;
    var what := StepStores(s, t, s', step);
    match what {
      case Nothing => SameBytesKeep(s, s');
      case Encoded(v) => EncodedBytes(s, s', v);
      case Wrote(ok, taken) => WrittenBytes(s, s', ok, taken);
      case Synced => FlushedBytes(s, s');
    }
  }

  // ---- Whole runs ----

  ghost predicate Inv(s: State) {
    && LocksInv(s.threads, s.sh) && RoundInv(s.threads, s.sh.inProgress)
    && NumbersInv(s) && (forall t | t in s.threads :: ThreadInv(s, s.threads[t]))
    && BytesInv(s)
  }

  lemma StepKeeps(s: State, t: nat, s': State, step: Step)
    requires Inv(s) && Takes(s, t, s', step)
    ensures Inv(s') && Effect(s, t, s')
  {
    assert t in s.threads;
    hide LocksInv, RoundInv, NumbersInv, ThreadInv, BytesInv, Takes, NumbersEffect, LockEffect, RoundEffect;
    StepDoes(s, t, s', step);
    LocksKeep(s, t, s');
    RoundKeeps(s.threads, t, s'.threads, s.sh.inProgress, s'.sh.inProgress);
    BytesKeep(s, t, s', step);
    forall u | u in s'.threads
      ensures ThreadInv(s', s'.threads[u])
    {
      if u != t {
        OthersKeep(s, t, s', u);
      }
    }
  }

  lemma InitialHolds(s: State)
    requires Initial(s)
    ensures Inv(s)
  {
    NoneFits(0, 0);
    assert s.records[..0] == [] && s.records[0..] == [];
    assert s.start + [] == s.start;
    assert First(s, s.base) == s.start;
  }

  lemma {:induction false} RunHolds(states: seq<State>, steps: seq<(nat, Step)>, i: nat)
    requires Run(states, steps) && i < |states|
    ensures Inv(states[i])
  {
    hide Inv, Takes, Initial, Effect;
    if i == 0 {
      InitialHolds(states[0]);
    } else {
      RunHolds(states, steps, i - 1);
      StepKeeps(states[i - 1], steps[i - 1].0, states[i], steps[i - 1].1);
    }
  }

  /**
   * Until a write fails, file and buffer together are the encodings of all records in order, and the counters line up.
   */
  lemma LogIsInOrder(states: seq<State>, steps: seq<(nat, Step)>, i: nat)
    requires Run(states, steps) && i < |states| && !states[i].sh.failed
    ensures var s := states[i];
            && s.base <= s.sh.durable <= s.synced <= s.sh.written <= s.sh.lastSeq == s.base + |s.records|
            && s.sh.file + s.sh.buf == s.start + Flat(s.records)
            && s.device == s.start + Flat(s.records[..s.synced - s.base])
            && forall k | 0 <= k < |s.records| :: s.records[k].seqno == s.base + 1 + k
  {
    hide LocksInv, RoundInv, ThreadInv, Takes, Initial, Flat, Encodable;
    RunHolds(states, steps, i);
    AllWritten(states[i]);
    assert states[i].records[..|states[i].records|] == states[i].records;
  }

  lemma Prefixes(s: State, n: nat, m: nat)
    requires s.base <= n <= m <= s.base + |s.records|
    ensures First(s, n) <= First(s, m)
  {
    hide Flat;
    var a, b := s.records[..n - s.base], s.records[n - s.base..m - s.base];
    assert s.records[..m - s.base] == a + b;
    FlatSplits(a, b);
    Associates(s.start, Flat(a), Flat(b));
  }

  lemma StepGrows(s: State, t: nat, s': State, step: Step)
    requires Inv(s) && Takes(s, t, s', step)
    ensures s'.start == s.start && s'.base == s.base && s.records <= s'.records && s.device <= s'.device
  {
    assert s.device <= s.sh.file;
    hide Inv, Takes, OthersEffect, LockEffect, RoundEffect;
    StepKeeps(s, t, s', step);
  }

  lemma {:induction false} RunGrows(states: seq<State>, steps: seq<(nat, Step)>, i: nat, j: nat)
    requires Run(states, steps) && i <= j < |states|
    ensures var s, s' := states[i], states[j];
            s'.start == s.start && s'.base == s.base && s.records <= s'.records && s.device <= s'.device
    decreases j
  {
    hide Inv, Takes, Initial;
    if i < j {
      RunGrows(states, steps, i, j - 1);
      RunHolds(states, steps, j - 1);
      StepGrows(states[j - 1], steps[j - 1].0, states[j], steps[j - 1].1);
    }
  }

  /**
   * A number an append returned under `Always` or `Group` before any write failed: its record and every one before it
   * are on the device, then and ever after, whatever fails later.
   */
  lemma AcknowledgedIsDurable(states: seq<State>, steps: seq<(nat, Step)>, i: nat, n: nat, j: nat)
    requires Run(states, steps) && i <= j < |states| && !states[i].sh.failed && n in states[i].acked
    ensures var s, s' := states[i], states[j];
            && s.base < n <= s.synced && n <= s.sh.lastSeq == s.base + |s.records|
            && s.records[n - s.base - 1].seqno == n
            && s.start + Flat(s.records[..n - s.base]) <= s'.device
  {
    hide LocksInv, RoundInv, ThreadInv, Takes, Initial, Flat, Encodable;
    RunHolds(states, steps, i);
    RunGrows(states, steps, i, j);
    Prefixes(states[i], n, states[i].synced);
  }

  lemma FlatGrows(records: seq<Version>, m: nat, k: nat)
    requires m <= k <= |records|
    ensures |Flat(records[..m])| <= |Flat(records[..k])|
  {
    hide Flat;
    assert records[..k] == records[..m] + records[m..k];
    FlatSplits(records[..m], records[m..k]);
  }

  lemma PrefixOfPrefix(a: Bytes, b: Bytes, c: Bytes)
    requires a <= b && b <= c
    ensures a == c[..|a|]
  {
  }

  /**
   * Whatever a crash leaves of the bytes written since the last flush, opening the log again returns the records it
   * was opened with and the appended ones, up to some point at or past every acknowledged one.
   */
  lemma CrashKeepsAcknowledged(states: seq<State>, steps: seq<(nat, Step)>, i: nat, before: seq<Version>, left: Bytes,
                               lastSeq: nat)
      returns (k: nat)
    requires Run(states, steps) && i < |states| && !states[i].sh.failed && states[i].sh.lastSeq <= U64_MAX
    requires states[i].start == Log(before) && Writable(before)
    requires states[i].device <= left <= states[i].sh.file
    ensures var s := states[i];
            && k <= |s.records| && (forall n | n in s.acked :: n <= s.base + k)
            && var all := before + s.records[..k];
            && Recovery(left, lastSeq) == Some(Recovered(Log(all), all, Highest(all, lastSeq)))
  {
    hide LocksInv, RoundInv, ThreadInv, Takes, Initial, Flat, Le, FileHeader, Recovery, Encodable, FitWhole;
    var s := states[i];
    RunHolds(states, steps, i);
    AllWritten(s);
    var all := before + s.records;
    assert s.records[..|s.records|] == s.records;
    LogGrows(before, s.records);
    Extends(s.sh.file, s.sh.file, s.sh.buf);
    PrefixOfPrefix(left, s.sh.file, Log(all));
    LogGrows(before, s.records[..s.synced - s.base]);
    var m := |before| + (s.synced - s.base);
    assert all[..m] == before + s.records[..s.synced - s.base];
    var n := |left| - FILE_HEADER_LEN;
    var fit := SomeFit(all, n);
    AtLeast(all, n, fit, m);
    CutLogRecovers(all, |left|, fit, lastSeq);
    k := fit - |before|;
    assert all[..fit] == before + s.records[..k];
  }

  lemma LogGrows(before: seq<Version>, more: seq<Version>)
    ensures Log(before) + Flat(more) == Log(before + more)
    ensures |Log(before + more)| == FILE_HEADER_LEN + |Flat(before + more)|
  {
    hide Flat, FileHeader;
    FlatSplits(before, more);
    Associates(FileHeader(), Flat(before), Flat(more));
  }

  lemma AtLeast(records: seq<Version>, n: nat, k: nat, m: nat)
    requires FitWhole(records, n, k) && m <= |records| && |Flat(records[..m])| <= n
    ensures m <= k <= |records|
  {
    hide Flat;
    if k < m {
      FlatGrows(records, k + 1, m);
    }
  }
}
