/** What survives a failed write: which acknowledged appends stay readable, whatever is appended behind the damage. */
module GroupCommitDamage {
  import opened Keys
  import opened Versions
  import opened Coding
  import opened WalRecord
  import opened WalReplay
  import opened GroupCommit
  import opened GroupCommitSafety

  /** The write of step `f` is the first to fail. */
  ghost predicate FirstFailure(states: seq<State>, steps: seq<(nat, Step)>, f: nat) {
    f < |steps| && f + 1 < |states| && !states[f].sh.failed && states[f + 1].sh.failed
  }

  /** The file holds every record up to number `m` whole after the write that failed. */
  ghost predicate Reaches(s: State, s': State, m: nat) {
    s.base + |s.records| == s.sh.lastSeq && s.base <= s.sh.written <= m <= s.sh.lastSeq && First(s, m) <= s'.sh.file
  }

  /** A failed write leaves part of the buffer in the file and changes nothing else that is stored. */
  lemma FailureTakes(s: State, t: nat, s': State, step: Step) returns (taken: nat)
    requires Takes(s, t, s', step) && !s.sh.failed && s'.sh.failed
    ensures taken < |s.sh.buf| && s'.sh.file == s.sh.file + s.sh.buf[..taken] && s'.sh.buf == []
    ensures s'.start == s.start && s'.base == s.base && s'.records == s.records && s'.device == s.device
            && s'.synced == s.synced
    ensures s'.sh.written == s.sh.written && s'.sh.lastSeq == s.sh.lastSeq && s'.sh.appendLock.None?
    ensures forall u | u in s'.threads :: s'.threads[u].Wanting? ==> u in s.threads && s.threads[u].Wanting?
  {
    hide Encodable, Encoding, Le, Payload;
    match step {
      case DoWrite(sh, ok, n) => taken := n;
      case DoWriteRound(sh, ok, n) => taken := n;
    }
  }

  /** The last record a failed write left whole. */
  lemma MarkExists(states: seq<State>, steps: seq<(nat, Step)>, f: nat) returns (m: nat)
    requires Run(states, steps) && FirstFailure(states, steps, f)
    ensures Reaches(states[f], states[f + 1], m)
    ensures m < states[f].sh.lastSeq ==> !Reaches(states[f], states[f + 1], m + 1)
  {
    hide Takes, Initial, Flat, LocksInv, RoundInv, ThreadInv, Encodable, FitWhole;
    var s, s' := states[f], states[f + 1];
    RunHolds(states, steps, f);
    var taken := FailureTakes(s, steps[f].0, s', steps[f].1);
    AllWritten(s);
    assert s.records[..|s.records|] == s.records;
    var n := |s'.sh.file| - |s.start|;
    var k := SomeFit(s.records, n);
    FitsFrom(s.records, n, k);
    AtLeast(s.records, n, k, s.sh.written - s.base);
    m := s.base + k;
    var all := s.start + Flat(s.records);
    assert s'.sh.file == all[..|s'.sh.file|];
    Prefixes(s, m, s.sh.lastSeq);
    ShorterPrefix(First(s, m), s'.sh.file, all);
  }

  lemma FitsFrom(records: seq<Version>, n: nat, k: nat)
    requires FitWhole(records, n, k)
    ensures k <= |records| && |Flat(records[..k])| <= n
    ensures k < |records| ==> n < |Flat(records[..k + 1])|
  {
  }

  lemma ShorterPrefix(a: Bytes, b: Bytes, c: Bytes)
    requires a <= c && b <= c && |a| <= |b|
    ensures a <= b
  {
  }

  // ---- What stays, whatever comes after ----

  /** The file only grows, and the device changes only by a flush. */
  lemma FileGrows(s: State, t: nat, s': State, step: Step)
    requires Takes(s, t, s', step)
    ensures s.sh.file <= s'.sh.file
    ensures (s'.device == s.device && s'.synced == s.synced) || (s'.device == s.sh.file && s'.synced == s.sh.written)
  {
    hide Takes, Encodable, Encoding;
    var what := StepStores(s, t, s', step);
  }

  /** Since the failure in `a`: the whole records are still in the file, and on the device if anything was flushed. */
  ghost predicate Kept(a: State, m: nat, s: State)
    requires a.base <= m <= a.base + |a.records|
  {
    && s.start == a.start && s.base == a.base && a.records <= s.records && First(a, m) <= s.sh.file
    && ((s.device == a.device && s.synced == a.synced) || First(a, m) <= s.device)
  }

  lemma KeptStep(a: State, m: nat, s: State, t: nat, s': State, step: Step)
    requires a.base <= m <= a.base + |a.records| && Kept(a, m, s) && Inv(s) && Takes(s, t, s', step)
    ensures Kept(a, m, s')
  {
    hide Inv, Takes, First;
    FileGrows(s, t, s', step);
    StepGrows(s, t, s', step);
  }

  lemma {:induction false} KeptAlong(states: seq<State>, steps: seq<(nat, Step)>, f: nat, m: nat, j: nat)
    requires Run(states, steps) && FirstFailure(states, steps, f) && Reaches(states[f], states[f + 1], m)
             && f < j < |states|
    ensures Kept(states[f], m, states[j])
    decreases j
  {
    hide Inv, Takes, Initial, First, Kept;
    if j == f + 1 {
      var taken := FailureTakes(states[f], steps[f].0, states[j], steps[f].1);
      KeptAtOnce(states[f], m, states[j]);
    } else {
      KeptAlong(states, steps, f, m, j - 1);
      RunHolds(states, steps, j - 1);
      KeptStep(states[f], m, states[j - 1], steps[j - 1].0, states[j], steps[j - 1].1);
    }
  }

  lemma KeptAtOnce(s: State, m: nat, s': State)
    requires Reaches(s, s', m) && s'.start == s.start && s'.base == s.base && s'.records == s.records
    requires s'.device == s.device && s'.synced == s.synced
    ensures Kept(s, m, s')
  {
  }

  lemma {:induction false} AckedStay(states: seq<State>, steps: seq<(nat, Step)>, i: nat, j: nat)
    requires Run(states, steps) && i <= j < |states|
    ensures states[i].acked <= states[j].acked
    decreases j
  {
    hide Inv, Takes, Initial, OthersEffect, LockEffect, RoundEffect;
    if i < j {
      AckedStay(states, steps, i, j - 1);
      RunHolds(states, steps, j - 1);
      StepKeeps(states[j - 1], steps[j - 1].0, states[j], steps[j - 1].1);
    }
  }

  lemma Numbers(s: State)
    requires Inv(s)
    ensures s.base <= s.sh.durable <= s.synced <= s.sh.written <= s.sh.lastSeq == s.base + |s.records|
    ensures forall n | n in s.acked :: s.base < n <= s.synced
    ensures forall i | 0 <= i < |s.records| :: s.records[i].seqno == s.base + 1 + i && Encodable(s.records[i])
    ensures !s.sh.failed ==>
              && s.device == First(s, s.synced) && s.sh.file == First(s, s.sh.written)
              && s.sh.buf == Flat(s.records[s.sh.written - s.base..])
  {
    hide LocksInv, RoundInv, ThreadInv, Flat, Encodable;
  }

  lemma SameFirst(a: State, s: State, n: nat)
    requires s.start == a.start && s.base == a.base && a.records <= s.records && a.base <= n <= a.base + |a.records|
    ensures First(s, n) == First(a, n)
  {
    hide Flat;
    assert s.records[..n - a.base] == a.records[..n - a.base];
  }

  /**
   * An append acknowledged at any time, before or after the failure, whose record the failed write had left whole: it
   * and every record before it are on the device, then and ever after.
   */
  lemma BelowTheMarkIsDurable(states: seq<State>, steps: seq<(nat, Step)>, f: nat, m: nat, i: nat, n: nat, j: nat)
    requires Run(states, steps) && FirstFailure(states, steps, f) && Reaches(states[f], states[f + 1], m)
    requires i <= j < |states| && f < j && n in states[i].acked && n <= m
    ensures var s := states[j];
            && s.base < n <= s.base + |s.records| && s.records[n - s.base - 1].seqno == n
            && s.start + Flat(s.records[..n - s.base]) <= s.device
  {
    hide Inv, Takes, Initial, Flat, First, Encodable;
    var a, s := states[f], states[j];
    RunHolds(states, steps, f);
    RunHolds(states, steps, j);
    Numbers(a);
    Numbers(s);
    AckedStay(states, steps, i, j);
    KeptAlong(states, steps, f, m, j);
    SameFirst(a, s, n);
    Prefixes(a, n, m);
    if n <= a.synced {
      Prefixes(a, n, a.synced);
    }
    FirstIs(s, n);
  }

  lemma FirstIs(s: State, n: nat)
    requires s.base <= n <= s.base + |s.records|
    ensures First(s, n) == s.start + Flat(s.records[..n - s.base])
  {
    hide Flat;
  }

  // ---- No append past the test ----

  /** Nobody is on the way to encode a record, so nothing is left to write. */
  ghost predicate Still(s: State, w: nat) {
    && s.sh.failed && s.sh.buf == [] && s.sh.written == w
    && forall t | t in s.threads :: !s.threads[t].Wanting? && !s.threads[t].Encode? && !s.threads[t].Write?
  }

  lemma StillStep(s: State, t: nat, s': State, step: Step, w: nat)
    requires Still(s, w) && Takes(s, t, s', step)
    ensures Still(s', w)
  {
    hide Encodable, Encoding, Le, Payload;
  }

  lemma StillAtOnce(s: State, t: nat, s': State, step: Step)
    requires Inv(s) && Inv(s') && Takes(s, t, s', step) && !s.sh.failed && s'.sh.failed
    requires forall u | u in s.threads :: !s.threads[u].Wanting?
    ensures Still(s', s.sh.written)
  {
    hide RoundInv, ThreadInv, BytesInv, Takes, NumbersInv;
    var taken := FailureTakes(s, t, s', step);
  }

  lemma {:induction false} StillAlong(states: seq<State>, steps: seq<(nat, Step)>, f: nat, j: nat)
    requires Run(states, steps) && FirstFailure(states, steps, f) && f < j < |states|
    requires forall u | u in states[f].threads :: !states[f].threads[u].Wanting?
    ensures Still(states[j], states[f].sh.written)
    decreases j
  {
    hide Inv, Takes, Initial, Still;
    if j == f + 1 {
      RunHolds(states, steps, f);
      RunHolds(states, steps, j);
      StillAtOnce(states[f], steps[f].0, states[j], steps[f].1);
    } else {
      StillAlong(states, steps, f, j - 1);
      StillStep(states[j - 1], steps[j - 1].0, states[j], steps[j - 1].1, states[f].sh.written);
    }
  }

  /**
   * If no append stands between the test of the failed flag and the append lock when the first write fails, every
   * acknowledgement ever made is durable, then and ever after.
   */
  lemma NobodyPastTheTestLosesNothing(states: seq<State>, steps: seq<(nat, Step)>, f: nat, i: nat, n: nat, j: nat)
    requires Run(states, steps) && FirstFailure(states, steps, f) && i <= j < |states| && n in states[i].acked
    requires forall u | u in states[f].threads :: !states[f].threads[u].Wanting?
    ensures var s := states[j];
            && s.base < n <= s.base + |s.records| && s.records[n - s.base - 1].seqno == n
            && s.start + Flat(s.records[..n - s.base]) <= s.device
  {
    hide Inv, Takes, Initial, Flat, First, Encodable, Still;
    AckedStay(states, steps, i, j);
    RunHolds(states, steps, j);
    Numbers(states[j]);
    if j <= f {
      NotYetFailed(states, steps, f, j);
      AcknowledgedIsDurable(states, steps, j, n, j);
    } else {
      StillAlong(states, steps, f, j);
      StillWritten(states[j], states[f].sh.written);
      WrittenReaches(states, steps, f);
      BelowTheMarkIsDurable(states, steps, f, states[f].sh.written, i, n, j);
    }
  }

  lemma StillWritten(s: State, w: nat)
    requires Still(s, w)
    ensures s.sh.written == w
  {
  }

  /** Everything written before the failure is whole in the file after it. */
  lemma WrittenReaches(states: seq<State>, steps: seq<(nat, Step)>, f: nat)
    requires Run(states, steps) && FirstFailure(states, steps, f)
    ensures Reaches(states[f], states[f + 1], states[f].sh.written)
  {
    hide Inv, Takes, Initial, First, Encodable, Flat;
    RunHolds(states, steps, f);
    Numbers(states[f]);
    FileGrows(states[f], steps[f].0, states[f + 1], steps[f].1);
  }

  lemma {:induction false} NotYetFailed(states: seq<State>, steps: seq<(nat, Step)>, f: nat, j: nat)
    requires Run(states, steps) && FirstFailure(states, steps, f) && j <= f
    ensures !states[j].sh.failed
    decreases f - j
  {
    hide Inv, Takes, Initial, OthersEffect, LockEffect, RoundEffect;
    if j < f {
      NotYetFailed(states, steps, f, j + 1);
      RunHolds(states, steps, j);
      StepKeeps(states[j], steps[j].0, states[j + 1], steps[j].1);
    }
  }

  // ---- A crash after the failure ----

  /** Whole records followed by bytes that are not a record: replay returns those records and stops there. */
  lemma {:induction false} DamagedReplays(file: Bytes, pos: nat, records: seq<Version>)
    requires WalReplay.Writable(records) && pos + |Flat(records)| <= |file|
             && file[pos..pos + |Flat(records)|] == Flat(records)
    requires ReadRecord(file, pos + |Flat(records)|) == None
    ensures ReplayFrom(file, pos) == Whole(file, pos, records, |records|)
    decreases |records|
  {
    hide Le, FromLe, Encoding, Payload, ReadRecord, ReplayFrom, WalReplay.Writable, Flat;
    assert records[..|records|] == records;
    if records == [] {
      NoneFits(0, 0);
      ReplaySteps(file, pos);
    } else {
      WritableParts(records);
      FlatFront(records);
      var front, rest := Encoding(records[0]), Flat(records[1..]);
      var stretch := file[pos..pos + |Flat(records)|];
      assert file[pos..pos + |front|] == stretch[..|front|] == front;
      assert file[pos + |front|..pos + |front| + |rest|] == stretch[|front|..] == rest;
      ReadsWhole(file, pos, records[0]);
      DamagedReplays(file, pos + |front|, records[1..]);
      FrontRead(file, pos, records, |records|);
    }
  }

  lemma DamagedRecovers(records: seq<Version>, left: Bytes, lastSeq: nat)
    requires WalReplay.Writable(records) && Log(records) <= left && ReadRecord(left, |Log(records)|) == None
    ensures Recovery(left, lastSeq) == Some(Recovered(Log(records), records, Highest(records, lastSeq)))
  {
    hide ReplayFrom, FileHeader, Flat, WalReplay.Writable, Highest, ReadRecord;
    assert left[..|Log(records)|] == Log(records);
    assert left[FILE_HEADER_LEN..FILE_HEADER_LEN + |Flat(records)|] == Log(records)[FILE_HEADER_LEN..] == Flat(records);
    assert left[..FILE_HEADER_LEN] == Log(records)[..FILE_HEADER_LEN] == FileHeader();
    DamagedReplays(left, FILE_HEADER_LEN, records);
    assert records[..|records|] == records;
  }

  /** What the file held for certain, as a log. */
  lemma FirstIsLog(before: seq<Version>, a: State, m: nat)
    requires a.start == Log(before) && a.base <= m <= a.base + |a.records|
    ensures First(a, m) == Log(before + a.records[..m - a.base])
  {
    hide Flat, Log;
    LogGrows(before, a.records[..m - a.base]);
  }

  /** At the spot the failed write left behind no record can be read. */
  ghost predicate Unreadable(left: Bytes, mark: Bytes) {
    |mark| <= |left| ==> ReadRecord(left, |mark|) == None
  }

  /** A cut of a log behind its first `c` records recovers at least those. */
  lemma CutKeeps(records: seq<Version>, c: nat, left: Bytes, lastSeq: nat) returns (fit: nat)
    requires WalReplay.Writable(records) && c <= |records| && Log(records[..c]) <= left <= Log(records)
    ensures c <= fit <= |records|
    ensures Recovery(left, lastSeq) == Some(Recovered(Log(records[..fit]), records[..fit],
                                                      Highest(records[..fit], lastSeq)))
  {
    hide Flat, Recovery, WalReplay.Writable, Highest, FitWhole, Log;
    LogLength(records[..c]);
    LogLength(records);
    var n := |left| - FILE_HEADER_LEN;
    fit := SomeFit(records, n);
    AtLeast(records, n, fit, c);
    assert left == Log(records)[..|left|];
    CutLogRecovers(records, |left|, fit, lastSeq);
  }

  lemma LogLength(records: seq<Version>)
    ensures |Log(records)| == FILE_HEADER_LEN + |Flat(records)|
  {
    hide Flat;
  }

  /** Opening `left` returns the records the log began with and the first `k` of `more`, and keeps exactly those. */
  ghost predicate ReadsBack(left: Bytes, lastSeq: nat, before: seq<Version>, more: seq<Version>, k: nat) {
    && k <= |more|
    && var all := before + more[..k];
       Recovery(left, lastSeq) == Some(Recovered(Log(all), all, Highest(all, lastSeq)))
  }

  lemma IsReadBack(left: Bytes, lastSeq: nat, before: seq<Version>, more: seq<Version>, k: nat)
    requires k <= |more|
    requires var all := before + more[..k];
             Recovery(left, lastSeq) == Some(Recovered(Log(all), all, Highest(all, lastSeq)))
    ensures ReadsBack(left, lastSeq, before, more, k)
  {
    hide Recovery, Log, Highest;
  }

  ghost predicate HasNumber(records: seq<Version>, n: nat) {
    exists v :: v in records && v.seqno == n
  }

  lemma LogPrefix(before: seq<Version>, records: seq<Version>, k: nat)
    requires k <= |records|
    ensures Log(before + records[..k]) <= Log(before + records)
  {
    hide Flat, Log;
    LogGrows(before + records[..k], records[k..]);
    assert before + records[..k] + records[k..] == before + records;
  }
}
