/** Once every insert has returned, the skiplist holds exactly the mutations it was given. */
module SkiplistConverge {
  import opened Versions
  import opened Skiplist
  import opened SkiplistInvariant
  import opened SkiplistSafety

  /** The version a thread is still to link at the bottom level. */
  function Carrying(pc: Pc): Option<Version> {
    match pc
    case Numbered(v, _) => Some(v)
    case Sizing(v, _, _, _) => Some(v)
    case Placed(ins) => Some(ins.v)
    case Published(ins) => Some(ins.v)
    case Raising(ins, _) => Some(ins.v)
    case Descend(job) => OfJob(job)
    case Walk(job, _, _, _, _) => OfJob(job)
    case Store(ins, level, _, _) => if level == 0 then Some(ins.v) else None
    case Swap(ins, level, _, _) => if level == 0 then Some(ins.v) else None
    case _ => None
  }

  function OfJob(job: Job): Option<Version> {
    if job.Link? && job.level == 0 then Some(job.ins.v) else None
  }

  ghost function Underway(threads: map<nat, Pc>): set<Version> {
    set t | t in threads && Carrying(threads[t]).Some? :: Carrying(threads[t]).value
  }

  lemma UnderwayAfter(threads: map<nat, Pc>, t: nat, pc: Pc)
    requires t in threads && Carrying(pc) == Carrying(threads[t])
    ensures Underway(threads[t := pc]) == Underway(threads)
  {
    var after := threads[t := pc];
    assert forall u | u in threads :: Carrying(after[u]) == Carrying(threads[u]);
    assert forall u | u in after :: u in threads;
  }

  lemma UnderwayMore(threads: map<nat, Pc>, t: nat, pc: Pc)
    requires t in threads && Carrying(threads[t]).None? && Carrying(pc).Some?
    ensures Underway(threads[t := pc]) == Underway(threads) + {Carrying(pc).value}
  {
    var after := threads[t := pc];
    assert forall u | u in threads && u != t :: after[u] == threads[u];
    assert after[t] == pc;
  }

  lemma UnderwayLess(threads: map<nat, Pc>, t: nat, pc: Pc)
    requires t in threads && Carrying(threads[t]).Some? && Carrying(pc).None?
    ensures Underway(threads) == Underway(threads[t := pc]) + {Carrying(threads[t]).value}
  {
    var after := threads[t := pc];
    assert forall u | u in threads && u != t :: after[u] == threads[u];
    assert after[t] == pc;
  }

  ghost function Given(steps: seq<(nat, Step)>, n: nat): set<Version>
    requires n <= |steps|
  {
    set k | 0 <= k < n && steps[k].1.DoTakeNode? :: steps[k].1.v
  }

  /** Linked or still carried by some thread: nothing given is lost, and nothing else appears. */
  ghost predicate Accounted(s: State, given: set<Version>) {
    HasBottom(s) && Linked(s) + Underway(s.threads) == given
  }

  // ---- What a step does to the bottom level and to what threads carry ----

  lemma PublishedIsNew(s: State, t: nat, s': State)
    requires Inv(s) && Publish(s, t, s')
    ensures s.threads[t].ins.index !in s.sh.nodes
  {
    hide NodesInv, ChainsInv, Apart;
    assert ThreadInv(s, t, s.threads[t]);
  }

  /** Away from the bottom swap, the bottom level and its nodes stay. */
  lemma QuietStep(s: State, t: nat, s': State, step: Step)
    requires Inv(s) && Takes(s, t, s', step) && !(step.DoSwapLink? && BottomSwap(s, t, s'))
    ensures HasBottom(s) && HasBottom(s') && Linked(s') == Linked(s)
  {
    ChainMembers(s);
    if step.DoPublish? {
      PublishedIsNew(s, t, s');
      hide Inv;
      assert s'.chains == s.chains;
    } else {
      hide Inv, Spliced, Next, Skiplist.Readable, Precedes, Landed;
      QuietParts(s, t, s', step);
    }
  }

  lemma QuietParts(s: State, t: nat, s': State, step: Step)
    requires Takes(s, t, s', step) && !step.DoPublish? && !(step.DoSwapLink? && BottomSwap(s, t, s')) && |s.chains| > 0
    ensures s'.sh.nodes == s.sh.nodes && |s'.chains| == |s.chains| && s'.chains[0] == s.chains[0]
  {
    hide Spliced, Next, Skiplist.Readable, Precedes, Landed;
  }

  /** What a thread carries through one of its steps. */
  lemma CarryingStep(s: State, t: nat, s': State, step: Step)
    requires Takes(s, t, s', step)
    ensures t in s.threads && t in s'.threads && s'.threads == s.threads[t := s'.threads[t]]
    ensures step.DoTakeNode? ==> Carrying(s.threads[t]).None? && Carrying(s'.threads[t]) == Some(step.v)
    ensures step.DoSwapLink? && BottomSwap(s, t, s') ==>
              Carrying(s.threads[t]) == Some(s.threads[t].ins.v) && Carrying(s'.threads[t]).None?
    ensures !step.DoTakeNode? && !(step.DoSwapLink? && BottomSwap(s, t, s'))
            ==> Carrying(s'.threads[t]) == Carrying(s.threads[t])
  {
    hide Spliced, Next, Skiplist.Readable, Precedes, Carrying;
    OwnStep(s, t, s', step);
    if step.DoSwapLink? {
      CarryingSwap(s, t, s');
    } else if step.DoReadLink? {
      CarryingRead(s, t, s');
    } else {
      CarryingElse(s, t, s', step);
    }
  }

  lemma OwnStep(s: State, t: nat, s': State, step: Step)
    requires Takes(s, t, s', step)
    ensures t in s.threads && t in s'.threads && s'.threads == s.threads[t := s'.threads[t]]
  {
    hide Spliced, Next, Skiplist.Readable, Precedes, Landed;
  }

  lemma CarryingSwap(s: State, t: nat, s': State)
    requires SwapLink(s, t, s')
    ensures BottomSwap(s, t, s') ==>
              Carrying(s.threads[t]) == Some(s.threads[t].ins.v) && Carrying(s'.threads[t]).None?
    ensures !BottomSwap(s, t, s') ==> Carrying(s'.threads[t]) == Carrying(s.threads[t])
  {
    hide Spliced, Next, Skiplist.Readable;
  }

  lemma CarryingRead(s: State, t: nat, s': State)
    requires ReadLink(s, t, s')
    ensures Carrying(s'.threads[t]) == Carrying(s.threads[t])
  {
    hide Next, Skiplist.Readable, Precedes;
  }

  lemma CarryingElse(s: State, t: nat, s': State, step: Step)
    requires Takes(s, t, s', step) && !step.DoSwapLink? && !step.DoReadLink?
    ensures t in s.threads && t in s'.threads
    ensures step.DoTakeNode? ==> Carrying(s.threads[t]).None? && Carrying(s'.threads[t]) == Some(step.v)
    ensures !step.DoTakeNode? ==> Carrying(s'.threads[t]) == Carrying(s.threads[t])
  {
    hide Next, Skiplist.Readable;
  }

  lemma SwapParts(s: State, t: nat, s': State)
    requires BottomSwap(s, t, s')
    ensures t in s.threads && s'.sh.nodes == s.sh.nodes && s.threads[t].Swap? && |s.chains| > 0 && |s'.chains| > 0
    ensures |s.threads[t].preds| > 0 && (s.threads[t].preds[0] == HEAD || s.threads[t].preds[0] in s.chains[0])
    ensures s'.chains[0] == Spliced(s.chains[0], s.threads[t].preds[0], s.threads[t].ins.index)
  {
    hide Spliced, Next, Skiplist.Readable;
  }

  lemma OneMoreLinked(nodes: map<nat, Entry>, chain: seq<nat>, pred: nat, x: nat)
    requires Known(nodes, chain) && x in nodes && (pred == HEAD || pred in chain)
    ensures Known(nodes, Spliced(chain, pred, x))
    ensures Carried(nodes, Spliced(chain, pred, x))
            == Carried(nodes, chain) + {nodes[x].v}
  {
    hide Spliced;
    forall y
      ensures y in Spliced(chain, pred, x) <==> y in chain || y == x
    {
      SplicedMembers(chain, pred, x, y);
    }
  }

  lemma SwapLinks(s: State, t: nat, s': State)
    requires Inv(s) && BottomSwap(s, t, s')
    ensures HasBottom(s) && HasBottom(s') && Linked(s') == Linked(s) + {s.threads[t].ins.v}
  {
    hide Inv, BottomSwap, Known, Carried, Spliced;
    BottomKnown(s);
    SwapParts(s, t, s');
    SwapNode(s, t);
    OneMoreLinked(s.sh.nodes, s.chains[0], s.threads[t].preds[0], s.threads[t].ins.index);
  }

  lemma BottomKnown(s: State)
    requires Inv(s)
    ensures HasBottom(s)
  {
    hide NodesInv, ThreadInv, Apart, LevelInv;
    ChainMembers(s);
  }

  lemma SwapNode(s: State, t: nat)
    requires Inv(s) && t in s.threads && s.threads[t].Swap?
    ensures s.threads[t].ins.index in s.sh.nodes && s.sh.nodes[s.threads[t].ins.index].v == s.threads[t].ins.v
  {
    hide NodesInv, ChainsInv, Apart, PairsInv;
    assert ThreadInv(s, t, s.threads[t]);
  }

  lemma StepAccounts(s: State, t: nat, s': State, step: Step, given: set<Version>)
    requires Inv(s) && Inv(s') && Takes(s, t, s', step) && Accounted(s, given)
    ensures Accounted(s', given + if step.DoTakeNode? then {step.v} else {})
  {
    hide Inv, Takes, Linked, Underway, BottomSwap, HasBottom, Carrying;
    CarryingStep(s, t, s', step);
    if step.DoSwapLink? && BottomSwap(s, t, s') {
      SwapLinks(s, t, s');
      UnderwayLess(s.threads, t, s'.threads[t]);
    } else {
      QuietStep(s, t, s', step);
      if step.DoTakeNode? {
        UnderwayMore(s.threads, t, s'.threads[t]);
      } else {
        UnderwayAfter(s.threads, t, s'.threads[t]);
      }
    }
  }

  lemma InitialAccounts(s: State)
    requires Initial(s)
    ensures Accounted(s, {})
  {
    assert s.chains[0] == [];
    assert Linked(s) == {} && Underway(s.threads) == {};
  }

  lemma GivenGrows(steps: seq<(nat, Step)>, n: nat)
    requires n < |steps|
    ensures Given(steps, n + 1) == Given(steps, n) + if steps[n].1.DoTakeNode? then {steps[n].1.v} else {}
  {
  }

  lemma {:induction false} RunAccounts(states: seq<State>, steps: seq<(nat, Step)>, i: nat)
    requires Run(states, steps) && i < |states|
    ensures Accounted(states[i], Given(steps, i))
  {
    hide Inv, Takes, Initial, Accounted;
    if i == 0 {
      assert Given(steps, 0) == {};
      InitialAccounts(states[0]);
    } else {
      RunAccounts(states, steps, i - 1);
      RunHolds(states, steps, i - 1);
      RunHolds(states, steps, i);
      StepAccounts(states[i - 1], steps[i - 1].0, states[i], steps[i - 1].1, Given(steps, i - 1));
      GivenGrows(steps, i - 1);
    }
  }

  /** With no insert under way, the table holds exactly what was given to it, in whatever order it arrived. */
  lemma QuietTableHoldsEverything(states: seq<State>, steps: seq<(nat, Step)>, i: nat)
    requires Run(states, steps) && i < |states|
    requires forall t | t in states[i].threads :: Carrying(states[i].threads[t]).None?
    ensures HasBottom(states[i]) && Linked(states[i]) == Given(steps, i)
  {
    hide Takes, Initial, Linked, HasBottom;
    RunAccounts(states, steps, i);
    assert Underway(states[i].threads) == {};
  }
}
