/** No deadlock, no lost wake-up, and every call returns, even when writes and flushes fail. */
module GroupCommitProgress {
  import opened Bounds
  import opened Sums
  import opened Versions
  import opened WalRecord
  import opened Coding
  import opened GroupCommit
  import opened GroupCommitSafety

  /** A step of a call already under way, not counting wake-ups without a reason. */
  ghost predicate Progress(step: Step) {
    !step.DoStartAppend? && !step.DoStartSync? && !step.DoWakeUp?
  }

  ghost predicate CanStep(s: State, t: nat) {
    exists s', step :: Progress(step) && Takes(s, t, s', step)
  }

  // ---- Some thread can always step ----

  predicate WantsAppend(pc: Pc) {
    pc.Wanting? || pc.Round?
  }

  predicate WantsSync(pc: Pc) {
    pc.Syncing? || pc.RoundDone?
  }

  lemma Unblocked(s: State, t: nat)
    requires t in s.threads && !s.threads[t].Idle? && !s.threads[t].Waiting?
    requires WantsAppend(s.threads[t]) ==> s.sh.appendLock.None?
    requires WantsSync(s.threads[t]) ==> s.sh.syncLock.None?
    ensures CanStep(s, t)
  {
    var pc := s.threads[t];
    if WantsAppend(pc) {
      CanLockAppend(s, t);
    } else if WantsSync(pc) {
      CanLockSync(s, t);
    } else if pc.Encode? {
      CanEncode(s, t);
    } else if pc.Write? || pc.RoundWrite? {
      CanWrite(s, t);
    } else if pc.Flush? || pc.RoundFlush? {
      CanFlush(s, t);
    } else if pc.Deciding? {
      CanDecide(s, t);
    } else {
      CanEnd(s, t);
    }
  }

  lemma CanLockAppend(s: State, t: nat)
    requires t in s.threads && WantsAppend(s.threads[t]) && s.sh.appendLock.None?
    ensures CanStep(s, t)
  {
    var pc := s.threads[t];
    var s' := Goto(s, t, if pc.Wanting? then Encode(pc.v)
                   else RoundWrite(pc.seqno, pc.appends)).(sh := s.sh.(appendLock := Some(t)));
    assert Takes(s, t, s', DoLockAppend);
  }

  lemma CanLockSync(s: State, t: nat)
    requires t in s.threads && WantsSync(s.threads[t]) && s.sh.syncLock.None?
    ensures CanStep(s, t)
  {
    var pc := s.threads[t];
    var s' := Goto(s, t, if pc.Syncing? then Deciding(pc.seqno, pc.appends, false)
                   else RoundEnd(pc.seqno, pc.appends, pc.flushed)).(
                sh := s.sh.(syncLock := Some(t)));
    assert Takes(s, t, s', DoLockSync);
  }

  lemma CanEncode(s: State, t: nat)
    requires t in s.threads && s.threads[t].Encode?
    ensures CanStep(s, t)
  {
    hide Encodable, Encoding;
    var v := s.threads[t].v.(seqno := s.sh.lastSeq + 1);
    var buf := s.sh.buf + Encoding(v);
    var next := s.(sh := s.sh.(buf := buf, lastSeq := v.seqno), records := s.records + [v]);
    var s' := if !Encodable(v) then Returns(s, t, false, 0).(sh := s.sh.(appendLock := None))
              else if s.policy.Always? || |buf| >= MAX_PENDING_BYTES then Goto(next, t, Write(v.seqno))
              else Unlocked(next, t, v.seqno);
    assert Takes(s, t, s', DoEncode);
  }

  lemma CanWrite(s: State, t: nat)
    requires t in s.threads && (s.threads[t].Write? || s.threads[t].RoundWrite?)
    ensures CanStep(s, t)
  {
    var pc := s.threads[t];
    var sh := if s.sh.buf == [] then s.sh else s.sh.(file := s.sh.file + s.sh.buf, buf := [], written := s.sh.lastSeq);
    assert WritesBuffer(s.sh, sh, true, 0);
    if pc.Write? {
      var s' := if s.policy.Always? then Goto(s.(sh := sh), t, Flush(pc.seqno))
          else Unlocked(s.(sh := sh), t, pc.seqno);
      assert Takes(s, t, s', DoWrite(sh, true, 0));
    } else {
      var s' := Goto(s.(sh := sh.(appendLock := None)), t, RoundFlush(pc.seqno, pc.appends, sh.written));
      assert Takes(s, t, s', DoWriteRound(sh, true, 0));
    }
  }

  lemma CanFlush(s: State, t: nat)
    requires t in s.threads && (s.threads[t].Flush? || s.threads[t].RoundFlush?)
    ensures CanStep(s, t)
  {
    var pc := s.threads[t];
    if pc.Flush? {
      assert Takes(s, t, Unlocked(Flushed(s), t, pc.seqno), DoFlush(true));
    } else {
      assert Takes(s, t, Goto(Flushed(s), t, RoundDone(pc.seqno, pc.appends, Some(pc.target))), DoFlushRound(true));
    }
  }

  lemma CanDecide(s: State, t: nat)
    requires t in s.threads && s.threads[t].Deciding?
    ensures CanStep(s, t)
  {
    var pc := s.threads[t];
    var free := s.(sh := s.sh.(syncLock := None));
    var s' := if s.sh.durable >= pc.seqno then Returns(free, t, pc.appends, pc.seqno)
              else if s.sh.failed then Returns(free, t, false, 0)
              else if s.sh.inProgress then Goto(free, t, Waiting(pc.seqno, pc.appends))
              else Goto(free, t, Round(pc.seqno, pc.appends)).(sh := free.sh.(inProgress := true));
    assert Takes(s, t, s', DoDecide);
  }

  lemma CanEnd(s: State, t: nat)
    requires t in s.threads && s.threads[t].RoundEnd?
    ensures CanStep(s, t)
  {
    var pc := s.threads[t];
    var woken := s.(threads := Notified(s.threads));
    var s' := match pc.flushed
      case Some(target) =>
        Goto(woken, t, Deciding(pc.seqno, pc.appends, true)).(
          sh := s.sh.(inProgress := false, durable := Max(s.sh.durable, target)))
      case None => Goto(woken, t, Idle).(sh := s.sh.(inProgress := false, syncLock := None));
    assert Takes(s, t, s', DoEndRound);
  }

  lemma HoldersCanStep(s: State, t: nat)
    requires t in s.threads && (HoldsAppend(s.threads[t]) || HoldsSync(s.threads[t]))
    ensures CanStep(s, t)
  {
    Unblocked(s, t);
  }

  /** As long as some call has not returned, some thread can go on with its own. */
  lemma NeverStuck(states: seq<State>, steps: seq<(nat, Step)>, i: nat, t: nat) returns (u: nat)
    requires Run(states, steps) && i < |states| && t in states[i].threads && !states[i].threads[t].Idle?
    ensures u in states[i].threads && CanStep(states[i], u)
  {
    hide Takes, Initial, CanStep, NumbersInv, ThreadInv, BytesInv;
    RunHolds(states, steps, i);
    var s := states[i];
    if s.sh.appendLock.Some? {
      u := s.sh.appendLock.value;
      HoldersCanStep(s, u);
    } else if s.sh.syncLock.Some? {
      u := s.sh.syncLock.value;
      HoldersCanStep(s, u);
    } else if s.threads[t].Waiting? {
      u :| u in s.threads && InRound(s.threads[u]);
      Unblocked(s, u);
    } else {
      u := t;
      Unblocked(s, u);
    }
  }

  /** One thread at most owns a round, a thread waits only while one is under way, and no thread holds both locks. */
  lemma RoundsAreExclusive(states: seq<State>, steps: seq<(nat, Step)>, i: nat)
    requires Run(states, steps) && i < |states|
    ensures var s := states[i];
            && (forall t, u | t in s.threads && u in s.threads && InRound(s.threads[t])
                && InRound(s.threads[u]) :: t == u)
            && (forall t | t in s.threads && s.threads[t].Waiting? :: exists u ::
                  u in s.threads && InRound(s.threads[u]))
            && (s.sh.appendLock.Some? && s.sh.syncLock.Some? ==> s.sh.appendLock != s.sh.syncLock)
            && (forall t | t in s.threads ::
                  && (HoldsAppend(s.threads[t]) <==> s.sh.appendLock == Some(t))
                  && (HoldsSync(s.threads[t]) <==> s.sh.syncLock == Some(t)))
  {
    hide Takes, Initial, NumbersInv, ThreadInv, BytesInv;
    RunHolds(states, steps, i);
  }

  // ---- Every call returns ----

  const MOST: nat := 13

  /** How far a thread still has to go until it returns or waits. */
  function Rank(pc: Pc): (r: nat)
    ensures r <= MOST
  {
    match pc
    case Idle => 0
    case Waiting(_, _) => 1
    case Deciding(_, _, again) => if again then 2 else 8
    case RoundEnd(_, _, _) => 3
    case RoundDone(_, _, _) => 4
    case RoundFlush(_, _, _) => 5
    case RoundWrite(_, _) => 6
    case Round(_, _) => 7
    case Syncing(_, _) => 9
    case Flush(_) => 10
    case Write(_) => 11
    case Encode(_) => 12
    case Wanting(_) => 13
  }

  /** A thread that may still run a round. */
  function Pending(pc: Pc): nat {
    if pc.Idle? || (pc.Deciding? && pc.again) then 0 else 1
  }

  function Entry(m: map<nat, nat>): nat -> nat {
    (k: nat) => if k in m then m[k] else 0
  }

  ghost function Total(m: map<nat, nat>): nat {
    Sum(m.Keys, Entry(m))
  }

  lemma TotalUpdate(m: map<nat, nat>, k: nat, n: nat)
    requires k in m
    ensures Total(m[k := n]) + m[k] == Total(m) + n
  {
    var rest, after := m.Keys - {k}, m[k := n];
    SumWithout(m.Keys, Entry(m), k);
    assert after.Keys == m.Keys;
    SumWithout(after.Keys, Entry(after), k);
    SumAtMost(rest, Entry(m), Entry(after));
    SumAtMost(rest, Entry(after), Entry(m));
  }

  function Ranks(threads: map<nat, Pc>): map<nat, nat> {
    map t | t in threads :: Rank(threads[t])
  }

  function Pendings(threads: map<nat, Pc>): map<nat, nat> {
    map t | t in threads :: Pending(threads[t])
  }

  /** Every progress step lowers this. */
  ghost function Left(threads: map<nat, Pc>): nat {
    Total(Pendings(threads)) * (MOST * |threads| + 1) + Total(Ranks(threads))
  }

  /** One thread moves closer to its return, or ends a round for good. */
  ghost predicate Advances(threads: map<nat, Pc>, t: nat, threads': map<nat, Pc>) {
    && t in threads && t in threads'
    && (|| (threads' == threads[t := threads'[t]] && Rank(threads'[t]) < Rank(threads[t])
            && Pending(threads'[t]) <= Pending(threads[t]))
        || (threads' == Notified(threads)[t := threads'[t]] && Pending(threads[t]) == 1 && Pending(threads'[t]) == 0))
  }

  /** Only a round's end touches other threads; every other step moves its own thread along. */
  ghost predicate Moved(threads: map<nat, Pc>, t: nat, threads': map<nat, Pc>) {
    && t in threads && t in threads' && threads' == threads[t := threads'[t]]
    && Rank(threads'[t]) < Rank(threads[t]) && Pending(threads'[t]) <= Pending(threads[t])
  }

  lemma LockMoves(s: State, t: nat, s': State)
    requires LockAppend(s, t, s') || LockSync(s, t, s')
    ensures Moved(s.threads, t, s'.threads)
  {
  }

  lemma EncodeMoves(s: State, t: nat, s': State)
    requires EncodeRecord(s, t, s')
    ensures Moved(s.threads, t, s'.threads)
  {
    hide Encodable, Encoding, Le;
  }

  lemma WriteMoves(s: State, t: nat, s': State, sh: Shared, ok: bool, taken: nat)
    requires WriteRecord(s, t, s', sh, ok, taken) || WriteRound(s, t, s', sh, ok, taken)
    ensures Moved(s.threads, t, s'.threads)
  {
    hide WritesBuffer;
  }

  lemma FlushMoves(s: State, t: nat, s': State, ok: bool)
    requires FlushRecord(s, t, s', ok) || FlushRound(s, t, s', ok)
    ensures Moved(s.threads, t, s'.threads)
  {
  }

  lemma EndAdvances(s: State, t: nat, s': State)
    requires EndRound(s, t, s')
    ensures Advances(s.threads, t, s'.threads)
  {
    assert s'.threads == Notified(s.threads)[t := s'.threads[t]];
  }

  lemma StepAdvances(s: State, t: nat, s': State, step: Step)
    requires Inv(s) && Takes(s, t, s', step) && Progress(step)
    ensures Advances(s.threads, t, s'.threads)
  {
    hide LocksInv, RoundInv, NumbersInv, BytesInv, ThreadInv, Rank, Pending;
    hide LockAppend, EncodeRecord, WriteRecord, FlushRecord, LockSync, WriteRound, FlushRound, EndRound;
    if step.DoEndRound? {
      EndAdvances(s, t, s');
    } else if step.DoDecide? {
      assert ThreadInv(s, s.threads[t]);
      hide Decide;
      DecideAdvances(s, t, s');
    } else if step.DoEncode? {
      EncodeMoves(s, t, s');
    } else if step.DoWrite? || step.DoWriteRound? {
      WriteMoves(s, t, s', step.sh, step.ok, step.taken);
    } else if step.DoFlush? || step.DoFlushRound? {
      FlushMoves(s, t, s', step.ok);
    } else {
      LockMoves(s, t, s');
    }
  }

  /** After its own round a thread returns: the round covered its number, or a write failed. */
  lemma DecideAdvances(s: State, t: nat, s': State)
    requires Decide(s, t, s') && ThreadInv(s, s.threads[t])
    ensures Advances(s.threads, t, s'.threads)
  {
    assert s'.threads == s.threads[t := s'.threads[t]];
  }

  lemma NotifyKeepsPending(threads: map<nat, Pc>)
    ensures Pendings(Notified(threads)) == Pendings(threads)
  {
  }

  lemma MoveSums(threads: map<nat, Pc>, t: nat, pc: Pc)
    requires t in threads && Rank(pc) < Rank(threads[t]) && Pending(pc) <= Pending(threads[t])
    ensures Total(Ranks(threads[t := pc])) < Total(Ranks(threads))
    ensures Total(Pendings(threads[t := pc])) <= Total(Pendings(threads))
  {
    hide Rank, Pending;
    assert Ranks(threads[t := pc]) == Ranks(threads)[t := Rank(pc)];
    assert Pendings(threads[t := pc]) == Pendings(threads)[t := Pending(pc)];
    TotalUpdate(Ranks(threads), t, Rank(pc));
    TotalUpdate(Pendings(threads), t, Pending(pc));
  }

  lemma NotifySums(threads: map<nat, Pc>, t: nat, pc: Pc)
    requires t in threads && Pending(threads[t]) == 1 && Pending(pc) == 0
    ensures Total(Pendings(Notified(threads)[t := pc])) == Total(Pendings(threads)) - 1
  {
    NotifyKeepsPending(threads);
    hide Pending;
    assert Pendings(Notified(threads)[t := pc]) == Pendings(threads)[t := 0];
    TotalUpdate(Pendings(threads), t, 0);
  }

  lemma RanksBounded(threads: map<nat, Pc>)
    ensures Total(Ranks(threads)) <= MOST * |threads|
  {
    hide Rank;
    assert Ranks(threads).Keys == threads.Keys;
    assert |threads.Keys| == |threads|;
    SumBound(Ranks(threads).Keys, Entry(Ranks(threads)), MOST);
  }

  lemma AdvancesLowers(threads: map<nat, Pc>, t: nat, threads': map<nat, Pc>)
    requires Advances(threads, t, threads')
    ensures Left(threads') < Left(threads)
  {
    hide Total, Rank, Pending, Ranks, Pendings;
    SameSize(threads, t, threads');
    var most := MOST * |threads| + 1;
    if threads' == threads[t := threads'[t]] && Rank(threads'[t]) < Rank(threads[t])
        && Pending(threads'[t]) <= Pending(threads[t]) {
      MoveSums(threads, t, threads'[t]);
      Scaled(Total(Pendings(threads')), Total(Pendings(threads)), most);
    } else {
      NotifySums(threads, t, threads'[t]);
      RanksBounded(threads');
      OneLess(Total(Pendings(threads)), most);
    }
  }

  lemma SameSize(threads: map<nat, Pc>, t: nat, threads': map<nat, Pc>)
    requires Advances(threads, t, threads')
    ensures threads'.Keys == threads.Keys && |threads'| == |threads|
  {
    hide Rank, Pending;
    assert Notified(threads).Keys == threads.Keys;
    assert threads'.Keys == threads.Keys;
    assert |threads'.Keys| == |threads'| && |threads.Keys| == |threads|;
  }

  lemma Scaled(a: nat, b: nat, n: nat)
    requires a <= b
    ensures a * n <= b * n
  {
  }

  lemma OneLess(a: nat, n: nat)
    requires a > 0
    ensures (a - 1) * n + n == a * n
  {
  }

  /** With no new call, a run can only go on for so long: together with NeverStuck, every call returns. */
  lemma {:induction false} CallsReturn(states: seq<State>, steps: seq<(nat, Step)>, i: nat, j: nat)
    requires Run(states, steps) && i <= j < |states|
    requires forall k | i <= k < j :: Progress(steps[k].1)
    ensures j - i <= Left(states[i].threads) - Left(states[j].threads)
    decreases j
  {
    hide Inv, Takes, Initial, Left, Advances;
    if i < j {
      CallsReturn(states, steps, i, j - 1);
      RunHolds(states, steps, j - 1);
      StepAdvances(states[j - 1], steps[j - 1].0, states[j], steps[j - 1].1);
      AdvancesLowers(states[j - 1].threads, steps[j - 1].0, states[j].threads);
    }
  }
}
