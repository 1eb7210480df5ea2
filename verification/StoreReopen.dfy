/** When a stopped store can be opened again: exactly when it has a manifest or holds no complete table. */
module StoreReopen {
  import opened Bounds
  import opened Versions
  import opened Files
  import opened Levels
  import opened EngineState
  import opened Store
  import opened StoreInvariant
  import opened StoreSafety

  /** A stretch of a run, from any state. */
  ghost predicate Path(states: seq<State>, steps: seq<Step>) {
    && |states| == |steps| + 1
    && forall i | 0 <= i < |steps| :: Takes(states[i], states[i + 1], steps[i])
  }

  ghost predicate Leads(s: State, t: State) {
    exists states, steps :: Path(states, steps) && states[0] == s && states[|steps|] == t
  }

  lemma LeadsFurther(s: State, t: State, u: State, step: Step)
    requires Takes(s, t, step) && Leads(t, u)
    ensures Leads(s, u)
  {
    hide Takes;
    var states, steps :| Path(states, steps) && states[0] == t && states[|steps|] == u;
    var longer, more := [s] + states, [step] + steps;
    forall i | 0 <= i < |more|
      ensures Takes(longer[i], longer[i + 1], more[i])
    {
      if i > 0 {
        assert longer[i] == states[i - 1] && longer[i + 1] == states[i] && more[i] == steps[i - 1];
      }
    }
    assert Path(longer, more) && longer[|more|] == u;
  }

  lemma LeadsNowhere(s: State)
    ensures Leads(s, s)
  {
    var none: seq<Step> := [];
    assert Path([s], none) && [s][|none|] == s;
  }

  // ---- Refusal is final ----

  lemma {:induction false} RefusedForever(states: seq<State>, steps: seq<Step>, i: nat)
    requires Path(states, steps) && i < |states| && !states[0].Up? && Refused(states[0].disk)
    ensures !states[i].Up? && Refused(states[i].disk)
  {
    if i > 0 {
      RefusedForever(states, steps, i - 1);
      RefusedStep(states[i - 1], states[i], steps[i - 1]);
    }
  }

  lemma RefusedStep(s: State, t: State, step: Step)
    requires Takes(s, t, step) && !s.Up? && Refused(s.disk)
    ensures !t.Up? && Refused(t.disk)
  {
    hide Removed, Inserted, Opened, Recorded, Mark, Named, Loaded, Reduce;
  }

  // ---- Otherwise opening goes through ----

  lemma {:induction false} HighestNumber(s: set<nat>) returns (n: nat)
    ensures forall m | m in s :: m < n
    ensures n == 0 || n - 1 in s
  {
    if s == {} {
      n := 0;
    } else {
      var m :| m in s;
      var k := HighestNumber(s - {m});
      n := if k <= m then m + 1 else k;
      assert forall x | x in s :: x == m || x in s - {m};
    }
  }

  lemma ScanExists(disk: Disk) returns (n: nat)
    ensures IsScan(disk, n)
  {
    n := HighestNumber(disk.logs.Keys + disk.tables.Keys);
    if n == 0 {
      n := 1;
    }
  }

  lemma {:induction false} HighestRecord(records: set<Version>, floor: nat) returns (n: nat)
    ensures IsLastSeq(n, floor, records)
  {
    if records == {} {
      n := floor;
    } else {
      var v :| v in records;
      var k := HighestRecord(records - {v}, floor);
      n := Max(k, v.seqno);
      assert forall w | w in records :: w == v || w in records - {v};
      if n != floor {
        if n == v.seqno {
          assert v in records && v.seqno == n;
        } else {
          var w :| w in records - {v} && w.seqno == n;
          assert w in records;
        }
      }
    }
  }

  lemma {:induction false} SortedListing(s: set<nat>) returns (numbers: seq<nat>)
    ensures forall i, j | 0 <= i < j < |numbers| :: numbers[i] < numbers[j]
    ensures forall n :: n in numbers <==> n in s
  {
    if s == {} {
      numbers := [];
    } else {
      var n := HighestNumber(s);
      var m :| m in s;
      assert n - 1 in s;
      var rest := SortedListing(s - {n - 1});
      numbers := rest + [n - 1];
      assert forall i | 0 <= i < |rest| :: rest[i] in s - {n - 1};
      assert forall k :: k in numbers <==> k in rest || k == n - 1;
    }
  }

  lemma {:induction false} DropPartials(s: State) returns (t: State)
    requires s.Opening?
    ensures t == Opening(s.disk.(partials := {}), s.trace, s.scanned) && Leads(s, t)
    decreases |s.disk.partials|
  {
    if s.disk.partials == {} {
      LeadsNowhere(s);
      t := s;
    } else {
      var n :| n in s.disk.partials;
      var next := Opening(s.disk.(partials := s.disk.partials - {n}), s.trace, s.scanned);
      assert Takes(s, next, DoDropPartial(n));
      t := DropPartials(next);
      LeadsFurther(s, next, t, DoDropPartial(n));
    }
  }

  ghost function Orphans(disk: Disk): set<nat> {
    set n | n in disk.tables && !Named(Manifest(disk).files, n)
  }

  lemma {:induction false} DropOrphans(s: State) returns (t: State)
    requires s.Opening? && s.disk.partials == {} && !Refused(s.disk)
    ensures t.Opening? && Orphans(t.disk) == {} && Leads(s, t)
    ensures t.disk.partials == {} && !Refused(t.disk)
    decreases |Orphans(s.disk)|
  {
    if Orphans(s.disk) == {} {
      LeadsNowhere(s);
      t := s;
    } else {
      var n :| n in Orphans(s.disk);
      var next := Opening(s.disk.(tables := s.disk.tables - {n}), s.trace, s.scanned);
      assert Takes(s, next, DoDropOrphan(n));
      assert Orphans(next.disk) == Orphans(s.disk) - {n};
      t := DropOrphans(next);
      LeadsFurther(s, next, t, DoDropOrphan(n));
    }
  }

  lemma {:induction false} PathHolds(states: seq<State>, steps: seq<Step>, i: nat)
    requires Path(states, steps) && i < |states| && Inv(states[0])
    ensures Inv(states[i])
  {
    hide Inv, Takes;
    if i > 0 {
      PathHolds(states, steps, i - 1);
      StepKeeps(states[i - 1], states[i], steps[i - 1]);
    }
  }

  lemma LeadsHolds(s: State, t: State)
    requires Leads(s, t) && Inv(s)
    ensures Inv(t)
  {
    hide Inv, Takes;
    var states, steps :| Path(states, steps) && states[0] == s && states[|steps|] == t;
    PathHolds(states, steps, |steps|);
  }

  lemma LeadsOn(s: State, t: State, u: State)
    requires Leads(s, t) && Leads(t, u)
    ensures Leads(s, u)
  {
    hide Takes;
    var states, steps :| Path(states, steps) && states[0] == s && states[|steps|] == t;
    LeadsBack(states, steps, |steps|, u);
  }

  lemma {:induction false} LeadsBack(states: seq<State>, steps: seq<Step>, i: nat, u: State)
    requires Path(states, steps) && i < |states| && Leads(states[i], u)
    ensures Leads(states[0], u)
  {
    hide Takes, Leads;
    if i > 0 {
      LeadsFurther(states[i - 1], states[i], u, steps[i - 1]);
      LeadsBack(states, steps, i - 1, u);
    }
  }

  /** With the leftovers gone, nothing stops the open from finishing. */
  lemma FinishExists(s: State) returns (t: State)
    requires s.Opening? && Inv(s) && s.disk.partials == {} && !Refused(s.disk) && Orphans(s.disk) == {}
    ensures t.Up? && Leads(s, t)
  {
    hide Leads, Takes, LogsInv, FilesInv, HistoryInv;
    forall n | n in s.disk.tables
      ensures Named(Manifest(s.disk).files, n)
    {
      assert n !in Orphans(s.disk);
    }
    var step;
    t, step := FinishStep(s);
    LeadsNowhere(t);
    LeadsFurther(s, t, t, step);
  }

  lemma FinishStep(s: State) returns (t: State, step: Step)
    requires s.Opening? && CanFinish(s.disk)
    ensures t.Up? && Takes(s, t, step)
  {
    hide CanFinish, Recorded, Opened, Loaded;
    var numbers := SortedListing(s.disk.logs.Keys);
    var lastSeq := HighestRecord(Recorded(s.disk.logs), Manifest(s.disk).lastSeq);
    var snapshot, none := Manifest(s.disk), s.disk.logs == map[];
    var next := Max(s.scanned, snapshot.nextNumber);
    NamedArePresent(s.disk);
    t := Up(if none then s.disk.(logs := map[next := []], synced := map[next := 0]) else s.disk,
            Memory(Recorded(s.disk.logs), if none then [next] else numbers, [],
                   Opened(Loaded(snapshot.files, s.disk.tables)), lastSeq,
                   snapshot, if none then next + 1 else next, {}, None, NoFlush, NoCompact, [s.trace.base]),
            s.trace);
    step := DoFinish(numbers, lastSeq);
    assert Finish(s, t, numbers, lastSeq);
  }

  lemma NamedArePresent(disk: Disk)
    requires CanFinish(disk)
    ensures forall f | f in Manifest(disk).files :: f.number in disk.tables
  {
  }

  lemma Reopens(s: State) returns (t: State)
    requires s.Down? && Inv(s) && !Refused(s.disk)
    ensures t.Up? && Leads(s, t)
  {
    hide Inv, Leads, Takes, Path;
    var n := ScanExists(s.disk);
    var a := Opening(s.disk, s.trace, n);
    ScanStep(s, a, n);
    var b := DropPartials(a);
    StepKeeps(s, a, DoScan(n));
    LeadsHolds(a, b);
    var c := DropOrphans(b);
    LeadsHolds(b, c);
    t := FinishExists(c);
    LeadsOn(b, c, t);
    LeadsOn(a, b, t);
    LeadsFurther(s, a, t, DoScan(n));
  }

  lemma ScanStep(s: State, t: State, n: nat)
    requires s.Down? && IsScan(s.disk, n) && t == Opening(s.disk, s.trace, n)
    ensures Takes(s, t, DoScan(n))
  {
  }

  /** A store stopped anywhere in any run can be opened again if and only if it has a manifest or no complete table. */
  lemma ReopensExactlyWhenNotRefused(states: seq<State>, steps: seq<Step>, i: nat)
    requires Run(states, steps) && i < |states| && states[i].Down?
    ensures (exists t: State :: t.Up? && Leads(states[i], t))
        <==> (states[i].disk.manifest.Some? || states[i].disk.tables == map[])
  {
    hide Leads, Inv, Takes;
    var s := states[i];
    RunHolds(states, steps, i);
    if !Refused(s.disk) {
      var t := Reopens(s);
    } else {
      forall t | Leads(s, t)
        ensures !t.Up?
      {
        RefusedLeads(s, t);
      }
    }
  }

  lemma RefusedLeads(s: State, t: State)
    requires Leads(s, t) && !s.Up? && Refused(s.disk)
    ensures !t.Up?
  {
    hide Takes;
    var states, steps :| Path(states, steps) && states[0] == s && states[|steps|] == t;
    RefusedForever(states, steps, |steps|);
  }

  // ---- The window in which an acknowledged write is locked away ----

  const ONLY_WRITE: Version := Version([], 1, Some([]))

  const ONLY_FILE: File := File(3, 0, [], [], 0, {ONLY_WRITE})

  // The states of a run that writes one key, starts its first flush and stops before the first commit.

  const ONLY_TRACE: Trace := Trace({ONLY_WRITE}, {ONLY_WRITE}, 0, 0)

  ghost function Mem2(): Memory {
    Memory({}, [1], [], Opened([]), 0, EmptySnapshot(), 2, {}, None, NoFlush, NoCompact, [0])
  }

  ghost function Disk2(): Disk {
    Disk(map[1 := []], map[1 := 0], map[], {}, None)
  }

  ghost function Disk4(): Disk {
    Disk(map[1 := [ONLY_WRITE]], map[1 := 1], map[], {}, None)
  }

  ghost function Disk6(): Disk {
    Disk(map[1 := [ONLY_WRITE], 2 := []], map[1 := 1, 2 := 0], map[], {}, None)
  }

  ghost function Mem6(): Memory {
    Mem2().(lastSeq := 1, active := {ONLY_WRITE}, nextNumber := 3, rotating := Some(2))
  }

  ghost function Mem7(): Memory {
    Mem6().(active := {}, activeLogs := [2], frozen := [Frozen({ONLY_WRITE}, [1])], rotating := None, cuts := [1, 0])
  }

  ghost function Witness(i: nat): State
    requires i <= 10
  {
    match i
    case 0 => Initial()
    case 1 => Opening(Initial().disk, Initial().trace, 1)
    case 2 => Up(Disk2(), Mem2(), Initial().trace)
    case 3 => Up(Disk2().(logs := map[1 := [ONLY_WRITE]]), Mem2().(lastSeq := 1, pending := {ONLY_WRITE}),
                 ONLY_TRACE.(acked := {}))
    case 4 => Up(Disk4(), Mem2().(lastSeq := 1, pending := {ONLY_WRITE}), ONLY_TRACE.(acked := {}))
    case 5 => Up(Disk4(), Mem2().(lastSeq := 1, active := {ONLY_WRITE}), ONLY_TRACE)
    case 6 => Up(Disk6(), Mem6(), ONLY_TRACE)
    case 7 => Up(Disk6(), Mem7(), ONLY_TRACE)
    case 8 => Up(Disk6().(partials := {3}), Mem7().(nextNumber := 4, flush := FlushWriting(3)), ONLY_TRACE)
    case 9 => Up(Disk6().(tables := map[3 := {ONLY_WRITE}]), Mem7().(nextNumber := 4, flush := FlushRenamed(ONLY_FILE)),
                 ONLY_TRACE)
    case _ => Down(Disk6().(tables := map[3 := {ONLY_WRITE}], synced := map[1 := 1, 2 := 0]), ONLY_TRACE)
  }

  lemma OpensEmpty()
    ensures Takes(Witness(0), Witness(1), DoScan(1))
    ensures Takes(Witness(1), Witness(2), DoFinish([], 0))
  {
    hide Opened;
    assert Recorded(Initial().disk.logs) == {};
    assert Loaded([], Initial().disk.tables) == [];
  }

  lemma WritesOne()
    ensures Takes(Witness(2), Witness(3), DoAppend(ONLY_WRITE))
    ensures Takes(Witness(3), Witness(4), DoSync(1))
    ensures Takes(Witness(4), Witness(5), DoInsert(ONLY_WRITE))
  {
    hide Opened;
    assert Disk2().logs[1] + [ONLY_WRITE] == [ONLY_WRITE];
    assert [ONLY_WRITE][..1] == [ONLY_WRITE] && ONLY_WRITE in [ONLY_WRITE];
  }

  lemma Rotates()
    ensures Takes(Witness(5), Witness(6), DoRotateCreate)
    ensures Takes(Witness(6), Witness(7), DoRotateSwap)
  {
    hide Opened;
    assert map[1 := [ONLY_WRITE]][2 := []] == map[1 := [ONLY_WRITE], 2 := []];
    assert map[1 := 1][2 := 0] == map[1 := 1, 2 := 0];
    assert [Frozen({ONLY_WRITE}, [1])] + [] == [Frozen({ONLY_WRITE}, [1])] && [1] + [0] == [1, 0];
  }

  lemma StartsToFlush()
    ensures Takes(Witness(7), Witness(8), DoFlushStart)
    ensures Takes(Witness(8), Witness(9), DoFlushRename(ONLY_FILE))
  {
    hide Opened, Reduce;
    OnlyFileIsRight();
    assert Disk6().tables[3 := {ONLY_WRITE}] == map[3 := {ONLY_WRITE}];
  }

  lemma Stops()
    ensures Takes(Witness(9), Witness(10), DoCrash)
  {
    var disk := Witness(9).disk;
    assert Truncated(disk, Witness(10).disk);
    assert Witness(10).disk.logs == disk.logs;
    assert ONLY_TRACE.history - (Recorded(disk.logs) - Recorded(disk.logs)) == ONLY_TRACE.history;
  }

  /**
   * The very first flush of a store renames its table into place before any manifest exists. A run that stops
   * there holds an acknowledged write and can never be opened again.
   */
  lemma FirstFlushCanLockTheStore() returns (states: seq<State>, steps: seq<Step>)
    ensures Run(states, steps) && states[|steps|].Down?
    ensures states[|steps|].trace.acked != {} && states[|steps|].disk.manifest.None?
            && states[|steps|].disk.tables != map[]
    ensures !exists t: State :: t.Up? && Leads(states[|steps|], t)
  {
    hide Leads, Takes, Opened;
    states := seq(11, i requires 0 <= i <= 10 => Witness(i));
    steps := [DoScan(1), DoFinish([], 0), DoAppend(ONLY_WRITE), DoSync(1), DoInsert(ONLY_WRITE), DoRotateCreate,
              DoRotateSwap,
              DoFlushStart, DoFlushRename(ONLY_FILE), DoCrash];
    OpensEmpty();
    WritesOne();
    Rotates();
    StartsToFlush();
    Stops();
    assert Run(states, steps);
    var last := states[|steps|];
    assert 3 in last.disk.tables;
    forall t | Leads(last, t)
      ensures !t.Up?
    {
      RefusedLeads(last, t);
    }
  }

  lemma OnlyFileIsRight()
    ensures ONLY_FILE.WellFormed() && ONLY_FILE.content == Reduce({ONLY_WRITE})
  {
    assert ONLY_WRITE in ONLY_FILE.content && ONLY_WRITE.key == [];
    assert ONLY_FILE.Covers([]);
  }
}
