/** Which records a log still reads after any number of failed writes, however much is appended behind them. */
module GroupCommitLosses {
  import opened Bounds
  import opened Keys
  import opened Versions
  import opened Coding
  import opened WalRecord
  import opened WalReplay
  import opened GroupCommit
  import opened GroupCommitSafety
  import opened GroupCommitDamage

  /**
   * The records whole in the file, how many records have left the buffer, how many of those in the file a flush has
   * covered, and the numbers of the records that left the buffer and did not reach the file whole.
   */
  datatype Books = Books(stored: seq<Version>, out: nat, flushed: nat, dropped: set<nat>)

  /** How many of the records fit whole in `n` bytes. */
  function WholeCount(records: seq<Version>, n: nat): (k: nat)
    ensures k <= |records|
  {
    if records == [] || |Encoding(records[0])| > n then 0
    else 1 + WholeCount(records[1..], n - |Encoding(records[0])|)
  }

  lemma {:induction false} WholeFits(records: seq<Version>, n: nat)
    ensures FitWhole(records, n, WholeCount(records, n))
    decreases |records|
  {
    hide Payload, Encoding, Flat;
    NoneFits(n, 0);
    assert records[..0] == [];
    if records != [] {
      assert records[..1] == [records[0]];
      OneFlat(records[0]);
      if |Encoding(records[0])| <= n {
        WholeFits(records[1..], n - |Encoding(records[0])|);
        var k := WholeCount(records, n);
        FrontFits(records, k);
        if k < |records| {
          FrontFits(records, k + 1);
        }
      }
    }
  }

  /** The numbers above `low`, up to `high`. */
  function Between(low: nat, high: nat): (r: set<nat>)
    ensures forall n :: n in r <==> low < n <= high
  {
    if high <= low then {} else Between(low, high - 1) + {high}
  }

  function Grown(before: Bytes, after: Bytes): nat {
    if |before| <= |after| then |after| - |before| else 0
  }

  /** The records of the buffer a failed write left whole. */
  ghost function Saved(b: Books, s: State, s': State): (k: nat)
    requires b.out <= |s.records|
    ensures b.out + k <= |s.records|
  {
    WholeCount(s.records[b.out..], Grown(s.sh.file, s'.sh.file))
  }

  ghost function Booked(b: Books, s: State, s': State, step: Step): Books {
    if b.out > |s.records| then b
    else if WriteFails(step) then
      var k := Saved(b, s, s');
      Books(b.stored + s.records[b.out..b.out + k], |s.records|, b.flushed,
            b.dropped + Between(s.base + b.out + k, s.base + |s.records|))
    else if step.DoWrite? || step.DoWriteRound? then
      Books(b.stored + s.records[b.out..], |s.records|, b.flushed, b.dropped)
    else if (step.DoFlush? || step.DoFlushRound?) && step.ok then b.(flushed := |b.stored|)
    else b
  }

  ghost function BooksAt(states: seq<State>, steps: seq<(nat, Step)>, j: nat): Books
    requires |states| == |steps| + 1 && j < |states|
  {
    if j == 0 then Books([], 0, 0, {})
    else Booked(BooksAt(states, steps, j - 1), states[j - 1], states[j], steps[j - 1].1)
  }

  /** A write that failed between two records, or before the first. */
  ghost predicate StopsClean(b: Books, s: State, s': State) {
    b.out <= |s.records| && Grown(s.sh.file, s'.sh.file) == |Flat(s.records[b.out..b.out + Saved(b, s, s')])|
  }

  ghost predicate Clean(states: seq<State>, steps: seq<(nat, Step)>, j: nat)
    requires |states| == |steps| + 1 && j < |states|
  {
    forall i | 0 <= i < j && WriteFails(steps[i].1) :: StopsClean(BooksAt(states, steps, i), states[i], states[i + 1])
  }

  // ---- The records ----

  ghost predicate Tallies(s: State, b: Books) {
    && b.out <= |s.records| && b.flushed <= |b.stored| && s.sh.written <= s.base + b.out
    && (forall v | v in b.stored :: v in s.records && s.base < v.seqno <= s.base + b.out)
    && (forall n | s.base < n <= s.base + b.out :: HasNumber(b.stored, n) <==> n !in b.dropped)
    && (forall n | n in b.dropped :: s.base < n <= s.base + b.out)
    && (forall i | b.flushed <= i < |b.stored| :: s.synced < b.stored[i].seqno)
  }

  /** Records leave the buffer, the first `k` of them into the file. */
  lemma Moves(s: State, b: Books, k: nat, s': State, b': Books)
    requires Tallies(s, b) && Inv(s) && b.out + k <= |s.records|
    requires s'.base == s.base && s'.records == s.records && s'.synced == s.synced
    requires s'.sh.written <= s.base + |s.records|
    requires b' == Books(b.stored + s.records[b.out..b.out + k], |s.records|, b.flushed,
                         b.dropped + Between(s.base + b.out + k, s.base + |s.records|))
    ensures Tallies(s', b')
  {
    hide Inv, First, Flat, Encodable, HasNumber, Between;
    Numbers(s);
    var more := s.records[b.out..b.out + k];
    assert forall i | 0 <= i < k :: more[i] == s.records[b.out + i] && more[i].seqno == s.base + b.out + 1 + i;
    forall n | s'.base < n <= s'.base + b'.out
      ensures HasNumber(b'.stored, n) <==> n !in b'.dropped
    {
      NumberIn(b.stored, more, n);
      MovedNumber(more, s.base + b.out, n);
      if n > s.base + b.out {
        NotAbove(b.stored, s.base + b.out, n);
      }
    }
  }

  /** Consecutive numbers from `low` on. */
  lemma MovedNumber(more: seq<Version>, low: nat, n: nat)
    requires forall i | 0 <= i < |more| :: more[i].seqno == low + 1 + i
    ensures HasNumber(more, n) <==> low < n <= low + |more|
  {
    if low < n <= low + |more| {
      assert more[n - low - 1].seqno == n;
    }
  }

  lemma NotAbove(stored: seq<Version>, high: nat, n: nat)
    requires high < n && forall v | v in stored :: v.seqno <= high
    ensures !HasNumber(stored, n)
  {
  }

  lemma NumberIn(a: seq<Version>, b: seq<Version>, n: nat)
    ensures HasNumber(a + b, n) <==> HasNumber(a, n) || HasNumber(b, n)
  {
    if HasNumber(a, n) {
      var v :| v in a && v.seqno == n;
      assert v in a + b;
    }
    if HasNumber(b, n) {
      var v :| v in b && v.seqno == n;
      assert v in a + b;
    }
  }

  lemma MovesAll(s: State, b: Books, s': State, b': Books)
    requires Tallies(s, b) && Inv(s)
    requires s'.base == s.base && s'.records == s.records && s'.synced == s.synced
             && s'.sh.written <= s.base + |s.records|
    requires b' == Books(b.stored + s.records[b.out..], |s.records|, b.flushed, b.dropped)
    ensures Tallies(s', b')
  {
    hide Inv, Tallies;
    var k := |s.records| - TalliedOut(s, b);
    assert s.records[b.out..b.out + k] == s.records[b.out..];
    assert b.dropped == b.dropped + Between(s.base + b.out + k, s.base + |s.records|);
    Moves(s, b, k, s', b');
  }

  ghost function TalliedOut(s: State, b: Books): (out: nat)
    requires Tallies(s, b)
    ensures out == b.out <= |s.records|
  {
    b.out
  }

  /** The books stay right over every step, failed writes included. */
  lemma TalliesStep(s: State, t: nat, s': State, step: Step, b: Books)
    requires Inv(s) && Inv(s') && Takes(s, t, s', step) && Tallies(s, b)
    ensures Tallies(s', Booked(b, s, s', step))
  {
    hide Inv, Takes, Encodable, Encoding, First, Flat, WholeCount;
    Numbers(s);
    Numbers(s');
    var what := StepStores(s, t, s', step);
    match what {
      case Nothing =>
      case Encoded(v) => StillTallies(s, s', b);
      case Wrote(ok, taken) =>
        if ok {
          MovesAll(s, b, s', Booked(b, s, s', step));
        } else {
          Moves(s, b, Saved(b, s, s'), s', Booked(b, s, s', step));
        }
      case Synced =>
    }
  }

  lemma StillTallies(s: State, s': State, b: Books)
    requires Tallies(s, b) && s'.base == s.base && s.records <= s'.records && s'.synced == s.synced
    requires s'.sh.written == s.sh.written
    ensures Tallies(s', b)
  {
    hide HasNumber;
    assert forall v | v in s.records :: v in s'.records;
  }

  // ---- The bytes ----

  ghost predicate Balanced(s: State, b: Books) {
    && Tallies(s, b)
    && s.sh.file == s.start + Flat(b.stored) && s.sh.buf == Flat(s.records[b.out..])
    && s.device == s.start + Flat(b.stored[..b.flushed])
  }

  lemma BalancedParts(s: State, b: Books)
    requires Balanced(s, b)
    ensures Tallies(s, b) && b.out <= |s.records| && b.flushed <= |b.stored|
    ensures s.sh.file == s.start + Flat(b.stored) && s.sh.buf == Flat(s.records[b.out..])
    ensures s.device == s.start + Flat(b.stored[..b.flushed])
  {
    hide Flat, HasNumber;
  }

  /** What a failed write leaves: the records it saved, and the start of the next one. */
  lemma SavedBytes(s: State, b: Books, s': State, taken: nat)
    requires b.out <= |s.records| && s.sh.buf == Flat(s.records[b.out..])
    requires taken <= |s.sh.buf| && s'.sh.file == s.sh.file + s.sh.buf[..taken]
    ensures Grown(s.sh.file, s'.sh.file) == taken
    ensures var saved := Flat(s.records[b.out..b.out + Saved(b, s, s')]);
            |saved| <= taken && s.sh.buf[..|saved|] == saved
  {
    hide Flat, FitWhole, WholeCount;
    var left, k := s.records[b.out..], Saved(b, s, s');
    WholeFits(left, taken);
    FitsFrom(left, taken, k);
    assert left[..k] == s.records[b.out..b.out + k];
    assert left == left[..k] + left[k..];
    FlatSplits(left[..k], left[k..]);
  }

  lemma BalancedStep(s: State, t: nat, s': State, step: Step, b: Books)
    requires Inv(s) && Inv(s') && Takes(s, t, s', step) && Balanced(s, b)
    requires WriteFails(step) ==> StopsClean(b, s, s')
    ensures Balanced(s', Booked(b, s, s', step))
  {
    hide Inv, Takes, Encodable, Encoding, First, Flat, Tallies, Saved;
    BalancedParts(s, b);
    TalliesStep(s, t, s', step, b);
    var b' := Booked(b, s, s', step);
    var what := StepStores(s, t, s', step);
    match what {
      case Nothing =>
      case Encoded(v) => EncodedBalance(s, s', b, v);
      case Wrote(ok, taken) =>
        EmptiesBuffer(s, s', b, b');
        if ok {
          WrittenBalance(s, s', b, taken);
        } else {
          SavedBytes(s, b, s', taken);
          StoredMore(s, b, s.records[b.out..b.out + Saved(b, s, s')]);
        }
      case Synced => assert b'.stored[..|b'.stored|] == b'.stored;
    }
  }

  lemma EncodedBalance(s: State, s': State, b: Books, v: Version)
    requires Encodes(s, s', v) && b.out <= |s.records| && s.sh.buf == Flat(s.records[b.out..])
    ensures s'.sh.buf == Flat(s'.records[b.out..])
  {
    hide Flat, Encodable, Encoding;
    assert s'.records[b.out..] == s.records[b.out..] + [v];
    FlatSplits(s.records[b.out..], [v]);
    OneFlat(v);
  }

  lemma EmptiesBuffer(s: State, s': State, b: Books, b': Books)
    requires s'.records == s.records && b'.out == |s.records| && b'.flushed == b.flushed <= |b.stored|
    requires b.stored <= b'.stored
    ensures s'.records[b'.out..] == [] && Flat([]) == [] && b'.stored[..b'.flushed] == b.stored[..b.flushed]
  {
    hide Flat;
    NoneFits(0, 0);
  }

  lemma StoredMore(s: State, b: Books, more: seq<Version>)
    ensures (s.start + Flat(b.stored)) + Flat(more) == s.start + Flat(b.stored + more)
  {
    hide Flat;
    FlatSplits(b.stored, more);
    Associates(s.start, Flat(b.stored), Flat(more));
  }

  lemma WrittenBalance(s: State, s': State, b: Books, taken: nat)
    requires Writes(s, s', true, taken) && b.out <= |s.records| && s.sh.buf == Flat(s.records[b.out..])
    requires s.sh.file == s.start + Flat(b.stored)
    ensures s'.sh.file == s.start + Flat(b.stored + s.records[b.out..]) && s'.sh.buf == []
  {
    hide Flat;
    StoredMore(s, b, s.records[b.out..]);
    if s.sh.buf == [] {
      assert s.sh.file + [] == s.sh.file;
    }
  }

  // ---- Whole runs ----

  lemma StartsBalanced(s: State)
    requires GroupCommit.Initial(s)
    ensures Balanced(s, Books([], 0, 0, {}))
  {
    NoneFits(0, 0);
    assert s.records[0..] == [] && s.start + [] == s.start;
  }

  lemma {:induction false} BooksTally(states: seq<State>, steps: seq<(nat, Step)>, j: nat)
    requires Run(states, steps) && j < |states|
    ensures Tallies(states[j], BooksAt(states, steps, j))
  {
    hide Inv, Takes, Tallies, Booked, Initial;
    if j == 0 {
      StartsBalanced(states[0]);
      BalancedParts(states[0], BooksAt(states, steps, 0));
    } else {
      BooksTally(states, steps, j - 1);
      RunHolds(states, steps, j - 1);
      RunHolds(states, steps, j);
      TalliesStep(states[j - 1], steps[j - 1].0, states[j], steps[j - 1].1, BooksAt(states, steps, j - 1));
    }
  }

  lemma {:induction false} BooksBalance(states: seq<State>, steps: seq<(nat, Step)>, j: nat)
    requires Run(states, steps) && j < |states| && Clean(states, steps, j)
    ensures Balanced(states[j], BooksAt(states, steps, j))
  {
    hide Inv, Takes, Balanced, Booked, Initial, StopsClean;
    if j == 0 {
      StartsBalanced(states[0]);
    } else {
      BooksBalance(states, steps, j - 1);
      RunHolds(states, steps, j - 1);
      RunHolds(states, steps, j);
      BalancedStep(states[j - 1], steps[j - 1].0, states[j], steps[j - 1].1, BooksAt(states, steps, j - 1));
    }
  }

  // ---- A crash ----

  /** What the file holds of whole records behind which the damage starts. */
  ghost function Mark(s: State, b: Books): Bytes {
    s.start + Flat(b.stored)
  }

  /** The whole records are still in the file, and on the device if anything was flushed since. */
  ghost predicate Stands(a: State, mark: Bytes, s: State) {
    && s.start == a.start && s.base == a.base && a.records <= s.records && mark <= s.sh.file
    && ((s.device == a.device && s.synced == a.synced) || mark <= s.device)
  }

  lemma StandsStep(a: State, mark: Bytes, s: State, t: nat, s': State, step: Step)
    requires Stands(a, mark, s) && Inv(s) && Takes(s, t, s', step)
    ensures Stands(a, mark, s')
  {
    hide Inv, Takes;
    FileGrows(s, t, s', step);
    StepGrows(s, t, s', step);
  }

  lemma {:induction false} StandsAlong(states: seq<State>, steps: seq<(nat, Step)>, i: nat, j: nat, mark: Bytes)
    requires Run(states, steps) && i <= j < |states| && mark <= states[i].sh.file
    ensures Stands(states[i], mark, states[j])
    decreases j
  {
    hide Inv, Takes, Initial;
    if i < j {
      StandsAlong(states, steps, i, j - 1, mark);
      RunHolds(states, steps, j - 1);
      StandsStep(states[i], mark, states[j - 1], steps[j - 1].0, states[j], steps[j - 1].1);
    }
  }

  /** Right after the damage: the whole records start the file, and what was flushed starts them. */
  lemma DamageStarts(states: seq<State>, steps: seq<(nat, Step)>, f: nat)
    requires Run(states, steps) && f < |steps| && Clean(states, steps, f) && WriteFails(steps[f].1)
    ensures var s, b := states[f + 1], BooksAt(states, steps, f + 1);
            && b.flushed <= |b.stored| && Mark(s, b) <= s.sh.file && s.device == s.start + Flat(b.stored[..b.flushed])
  {
    hide Inv, Takes, Initial, Flat, Balanced, Tallies, Saved, Encodable, Clean;
    var s, s', b := states[f], states[f + 1], BooksAt(states, steps, f);
    BooksBalance(states, steps, f);
    BalancedParts(s, b);
    var what := StepStores(s, steps[f].0, s', steps[f].1);
    SavedBytes(s, b, s', what.taken);
    var more := s.records[b.out..b.out + Saved(b, s, s')];
    StoredMore(s, b, more);
    PrefixOfWrite(s.sh.file, s.sh.buf, Flat(more), what.taken);
    assert (b.stored + more)[..b.flushed] == b.stored[..b.flushed];
  }

  lemma PrefixOfWrite(file: Bytes, buf: Bytes, saved: Bytes, taken: nat)
    requires |saved| <= taken <= |buf| && buf[..|saved|] == saved
    ensures file + saved <= file + buf[..taken]
  {
    assert buf[..taken][..|saved|] == saved;
  }

  /** A number returned is in the books, and then flushed, exactly if it left the buffer and was not dropped. */
  lemma ReturnedIsFlushed(s: State, b: Books, n: nat)
    requires Tallies(s, b) && s.base < n <= s.synced
    ensures n <= s.base + b.out && n !in b.dropped ==> HasNumber(b.stored[..b.flushed], n)
  {
    if n <= s.base + b.out && n !in b.dropped {
      var v :| v in b.stored && v.seqno == n;
      var i :| 0 <= i < |b.stored| && b.stored[i] == v;
      assert b.stored[..b.flushed][i] == v;
    }
  }

  lemma LongerHas(records: seq<Version>, c: nat, k: nat, n: nat)
    requires c <= k <= |records|
    ensures HasNumber(records[..c], n) ==> HasNumber(records[..k], n)
    ensures HasNumber(records[..k], n) ==> HasNumber(records, n)
  {
    if HasNumber(records[..c], n) {
      var v :| v in records[..c] && v.seqno == n;
      var i :| 0 <= i < c && records[..c][i] == v;
      assert records[..k][i] == v;
    }
  }

  lemma WholeNumbers(records: seq<Version>, n: nat)
    ensures HasNumber(records[..|records|], n) <==> HasNumber(records, n)
  {
    assert records[..|records|] == records;
  }

  lemma BookedIsWritable(before: seq<Version>, s: State, b: Books)
    requires Inv(s) && Tallies(s, b) && WalReplay.Writable(before) && s.sh.lastSeq <= U64_MAX
    ensures WalReplay.Writable(before + b.stored)
  {
    hide Inv, First, Flat, Encodable;
    Numbers(s);
  }

  lemma MarkIsLog(before: seq<Version>, start: Bytes, records: seq<Version>)
    requires start == Log(before)
    ensures start + Flat(records) == Log(before + records)
  {
    hide Flat, Log;
    LogGrows(before, records);
  }

  /**
   * Reading a log whose whole records are `stored`, cut somewhere behind the flushed ones or damaged behind them all.
   */
  lemma ReadsBooked(before: seq<Version>, b: Books, left: Bytes, lastSeq: nat, flushed: nat) returns (k: nat)
    requires WalReplay.Writable(before + b.stored) && flushed <= |b.stored|
    requires left <= Log(before + b.stored) || Log(before + b.stored) <= left
    requires Log(before + b.stored[..flushed]) <= left
    requires Unreadable(left, Log(before + b.stored))
    ensures flushed <= k <= |b.stored| && ReadsBack(left, lastSeq, before, b.stored, k)
    ensures Log(before + b.stored) <= left ==> k == |b.stored|
  {
    hide Log, Flat, WalReplay.Writable, Recovery, Highest, ReadRecord;
    var all := before + b.stored;
    if Log(all) <= left {
      k := |b.stored|;
      assert b.stored[..k] == b.stored;
      DamagedRecovers(all, left, lastSeq);
    } else {
      assert all[..|before| + flushed] == before + b.stored[..flushed];
      var fit := CutKeeps(all, |before| + flushed, left, lastSeq);
      k := fit - |before|;
      assert all[..fit] == before + b.stored[..k];
    }
    IsReadBack(left, lastSeq, before, b.stored, k);
  }

  lemma AckedNumbers(s: State)
    requires Inv(s)
    ensures forall n | n in s.acked :: s.base < n <= s.synced
  {
    hide Inv, First, Flat, Encodable;
    Numbers(s);
  }

  /** What is read back and what was flushed decide which of the numbers returned are there. */
  lemma Decides(a: State, b: Books, k: nat, n: nat)
    requires Tallies(a, b) && b.flushed <= k <= |b.stored| && a.base < n
    requires n <= a.synced || k == |b.stored|
    ensures HasNumber(b.stored[..k], n) <==> n <= a.base + b.out && n !in b.dropped
  {
    hide Tallies, HasNumber;
    TalliedNumber(a, b, n);
    LongerHas(b.stored, b.flushed, k, n);
    if n <= a.synced {
      ReturnedIsFlushed(a, b, n);
    } else {
      WholeNumbers(b.stored, n);
    }
  }

  lemma TalliedNumber(a: State, b: Books, n: nat)
    requires Tallies(a, b) && a.base < n
    ensures HasNumber(b.stored, n) <==> n <= a.base + b.out && n !in b.dropped
  {
  }

  ghost predicate Decided(s: State, b: Books, k: nat)
    requires k <= |b.stored|
  {
    forall n | n in s.acked :: HasNumber(b.stored[..k], n) <==> n <= s.base + b.out && n !in b.dropped
  }

  lemma CleanCrash(s: State, b: Books, before: seq<Version>, left: Bytes, lastSeq: nat) returns (k: nat)
    requires Inv(s) && Balanced(s, b) && s.start == Log(before) && WalReplay.Writable(before) && s.sh.lastSeq <= U64_MAX
    requires s.device <= left <= s.sh.file
    ensures ReadsBack(left, lastSeq, before, b.stored, k) && k <= |b.stored| && Decided(s, b, k)
  {
    hide Inv, Tallies, Balanced, Log, Flat, HasNumber, WalReplay.Writable, ReadsBack, Unreadable;
    BalancedParts(s, b);
    BookedIsWritable(before, s, b);
    MarkIsLog(before, s.start, b.stored);
    MarkIsLog(before, s.start, b.stored[..b.flushed]);
    WithinIsUnreadable(left, s.sh.file);
    k := ReadsBooked(before, b, left, lastSeq, b.flushed);
    AckedNumbers(s);
    forall n | n in s.acked
      ensures HasNumber(b.stored[..k], n) <==> n <= s.base + b.out && n !in b.dropped
    {
      Decides(s, b, k, n);
    }
  }

  lemma WithinIsUnreadable(left: Bytes, mark: Bytes)
    requires left <= mark
    ensures Unreadable(left, mark)
  {
    if |mark| <= |left| {
      NothingToRead(left, |mark|);
    }
  }

  lemma DamagedCrash(a: State, b: Books, s: State, before: seq<Version>, left: Bytes, lastSeq: nat) returns (k: nat)
    requires Inv(a) && Inv(s) && Tallies(a, b) && b.flushed <= |b.stored| && Stands(a, Mark(a, b), s)
    requires a.device == a.start + Flat(b.stored[..b.flushed]) && a.sh.lastSeq <= U64_MAX
    requires a.start == Log(before) && WalReplay.Writable(before)
    requires s.device <= left <= s.sh.file && Unreadable(left, Mark(a, b))
    ensures ReadsBack(left, lastSeq, before, b.stored, k) && k <= |b.stored| && Decided(s, b, k)
  {
    hide Inv, Tallies, Log, Flat, HasNumber, WalReplay.Writable, ReadsBack, Unreadable;
    BookedIsWritable(before, a, b);
    MarkIsLog(before, a.start, b.stored);
    MarkIsLog(before, a.start, b.stored[..b.flushed]);
    LogPrefix(before, b.stored, b.flushed);
    var mark := Mark(a, b);
    if |left| < |mark| {
      ShorterPrefix(left, mark, s.sh.file);
    } else {
      ShorterPrefix(mark, left, s.sh.file);
    }
    k := ReadsBooked(before, b, left, lastSeq, b.flushed);
    AckedNumbers(s);
    forall n | n in s.acked
      ensures HasNumber(b.stored[..k], n) <==> n <= s.base + b.out && n !in b.dropped
    {
      Decides(a, b, k, n);
    }
  }

  /**
   * A crash after any number of failed writes. As long as each stopped between two records the log reads on behind
   * them; the first one that did not, at step `f`, ends it, if the spot behind its last whole record cannot be read.
   * Opening the log returns a prefix of the records so far whole in the file, and a number returned is among them if
   * and only if its record left the buffer by then and was not dropped by a failed write.
   */
  lemma CrashAfterFailures(states: seq<State>, steps: seq<(nat, Step)>, f: nat, j: nat, before: seq<Version>,
                           left: Bytes,
                           lastSeq: nat) returns (k: nat)
    requires Run(states, steps) && f <= j < |states| && Clean(states, steps, f)
    requires f < j ==> WriteFails(steps[f].1)
    requires f < j ==> Unreadable(left, Mark(states[f + 1], BooksAt(states, steps, f + 1)))
    requires states[j].start == Log(before) && WalReplay.Writable(before) && states[j].sh.lastSeq <= U64_MAX
    requires states[j].device <= left <= states[j].sh.file
    ensures var b := BooksAt(states, steps, if f < j then f + 1 else j);
            ReadsBack(left, lastSeq, before, b.stored, k) && k <= |b.stored| && Decided(states[j], b, k)
  {
    hide Inv, Takes, Initial, Clean, Balanced, Tallies, BooksAt, Mark, Stands, ReadsBack, Unreadable, Decided, Log,
        Flat;
    RunHolds(states, steps, j);
    if f == j {
      BooksBalance(states, steps, j);
      k := CleanCrash(states[j], BooksAt(states, steps, j), before, left, lastSeq);
    } else {
      var a, b := states[f + 1], BooksAt(states, steps, f + 1);
      RunHolds(states, steps, f + 1);
      BooksTally(states, steps, f + 1);
      DamageStarts(states, steps, f);
      StandsAlong(states, steps, f + 1, j, Mark(a, b));
      StoodSince(a, Mark(a, b), states[j]);
      k := DamagedCrash(a, b, states[j], before, left, lastSeq);
    }
  }

  lemma StoodSince(a: State, mark: Bytes, s: State)
    requires Inv(a) && Inv(s) && Stands(a, mark, s)
    ensures a.start == s.start && a.sh.lastSeq <= s.sh.lastSeq
  {
    hide Inv, First, Flat, Encodable;
    Numbers(a);
    Numbers(s);
  }

  // ---- The first failure ----

  /** Until a write fails nothing is dropped: the file holds the records in order. */
  lemma {:induction false} NothingDroppedYet(states: seq<State>, steps: seq<(nat, Step)>, f: nat, j: nat)
    requires Run(states, steps) && FirstFailure(states, steps, f) && j <= f
    ensures var b := BooksAt(states, steps, j);
            b.out <= |states[j].records| && b.stored == states[j].records[..b.out] && b.dropped == {}
    decreases j
  {
    hide Inv, Takes, Initial, Booked, Saved;
    if j == 0 {
      assert states[0].records[..0] == [];
    } else {
      NothingDroppedYet(states, steps, f, j - 1);
      NotYetFailed(states, steps, f, j);
      RunHolds(states, steps, j - 1);
      BooksStayWhole(states[j - 1], steps[j - 1].0, states[j], steps[j - 1].1, BooksAt(states, steps, j - 1));
    }
  }

  lemma BooksStayWhole(s: State, t: nat, s': State, step: Step, b: Books)
    requires Inv(s) && Takes(s, t, s', step) && !s'.sh.failed
    requires b.out <= |s.records| && b.stored == s.records[..b.out] && b.dropped == {}
    ensures var b' := Booked(b, s, s', step);
            b'.out <= |s'.records| && b'.stored == s'.records[..b'.out] && b'.dropped == {}
  {
    hide Inv, Takes, Encodable, Encoding, Saved;
    var what := StepStores(s, t, s', step);
    match what {
      case Nothing =>
      case Encoded(v) => assert s'.records[..b.out] == s.records[..b.out];
      case Wrote(ok, taken) => assert s.records[..b.out] + s.records[b.out..] == s.records[..|s.records|];
      case Synced =>
    }
  }

  /**
   * After the first failure the whole records are those up to some number `m`, and the dropped ones those above it that
   * were encoded by then. With `CrashAfterFailures`: of the numbers returned, exactly those up to `m` survive if the
   * write did not stop between two records, and exactly those between `m` and the last one encoded are missing if it
   * did and no other write failed.
   */
  lemma FirstFailureDrops(states: seq<State>, steps: seq<(nat, Step)>, f: nat) returns (m: nat)
    requires Run(states, steps) && FirstFailure(states, steps, f)
    ensures var s, b := states[f], BooksAt(states, steps, f + 1);
            && WriteFails(steps[f].1) && s.base <= m <= s.sh.lastSeq == s.base + |s.records|
            && b.stored == s.records[..m - s.base] && b.out == |s.records| && b.dropped == Between(m, s.sh.lastSeq)
  {
    hide Inv, Takes, Initial, Booked, Between, First, Flat, Encodable;
    RunHolds(states, steps, f);
    NothingDroppedYet(states, steps, f, f);
    Numbers(states[f]);
    FailsByWrite(states[f], steps[f].0, states[f + 1], steps[f].1);
    m := DropsBehind(states[f], states[f + 1], steps[f].1, BooksAt(states, steps, f));
  }

  lemma DropsBehind(s: State, s': State, step: Step, b: Books) returns (m: nat)
    requires WriteFails(step) && b.out <= |s.records| && b.stored == s.records[..b.out] && b.dropped == {}
    ensures s.base <= m <= s.base + |s.records|
    ensures var b' := Booked(b, s, s', step);
            && b'.stored == s.records[..m - s.base] && b'.out == |s.records|
            && b'.dropped == Between(m, s.base + |s.records|)
  {
    hide Saved, Between;
    var k := Saved(b, s, s');
    m := s.base + b.out + k;
    assert s.records[..b.out] + s.records[b.out..b.out + k] == s.records[..b.out + k];
  }

  lemma FailsByWrite(s: State, t: nat, s': State, step: Step)
    requires Takes(s, t, s', step) && !s.sh.failed && s'.sh.failed
    ensures WriteFails(step)
  {
    hide Takes, Encodable, Encoding;
    var what := StepStores(s, t, s', step);
  }
}
