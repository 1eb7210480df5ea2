/** What the skiplist promises in every interleaving. */
module SkiplistSafety {
  import opened Bounds
  import opened Keys
  import opened Versions
  import opened Skiplist
  import opened SkiplistInvariant
  import opened SkiplistSteps
  import opened SkiplistLinking

  lemma StepKeeps(s: State, t: nat, s': State, step: Step)
    requires Inv(s) && Takes(s, t, s', step)
    ensures Inv(s')
  {
    hide Inv, TakeNode, LoadNextLink, ReserveTower, Publish, LoadTop, RaiseTop, StartFind, StartWalk, ReadLink,
        StoreLink, SwapLink, Return;
    match step {
      case DoTakeNode(v) => TakeNodeKeeps(s, t, s', v);
      case DoLoadNextLink(want) => LoadNextLinkKeeps(s, t, s', want);
      case DoReserveTower => ReserveTowerKeeps(s, t, s');
      case DoPublish => PublishKeeps(s, t, s');
      case DoLoadTop => LoadTopKeeps(s, t, s');
      case DoRaiseTop => RaiseTopKeeps(s, t, s');
      case DoStartFind(key) => StartFindKeeps(s, t, s', key);
      case DoStartWalk => StartWalkKeeps(s, t, s');
      case DoReadLink => ReadLinkKeeps(s, t, s');
      case DoStoreLink => StoreLinkKeeps(s, t, s');
      case DoSwapLink => SwapLinkKeeps(s, t, s');
      case DoReturn => ReturnKeeps(s, t, s');
    }
  }

  lemma InitialLevel(s: State, l: nat)
    requires Initial(s) && l < MAX_HEIGHT
    ensures s.chains[l] == [] && LevelInv(s.sh, s.chains[l], l)
  {
    assert Readable(s.sh, HEAD, l) && Next(s.sh, HEAD, l) == NIL;
  }

  lemma InitialNodes(s: State)
    requires Initial(s)
    ensures NodesInv(s.sh, s.owner, s.used)
  {
    assert Owns(s.owner, HEAD, 0, MAX_HEIGHT);
  }

  lemma InitialHolds(s: State)
    requires Initial(s)
    ensures Inv(s)
  {
    hide NodesInv, LevelInv;
    InitialNodes(s);
    forall l | 0 <= l < MAX_HEIGHT
      ensures s.chains[l] == [] && LevelInv(s.sh, s.chains[l], l)
    {
      InitialLevel(s, l);
    }
  }

  /** The invariant holds in every state of every interleaving. */
  lemma {:induction false} RunHolds(states: seq<State>, steps: seq<(nat, Step)>, i: nat)
    requires Run(states, steps) && i < |states|
    ensures Inv(states[i])
  {
    hide Inv, Takes, Initial;
    if i == 0 {
      InitialHolds(states[0]);
    } else {
      RunHolds(states, steps, i - 1);
      StepKeeps(states[i - 1], steps[i - 1].0, states[i], steps[i - 1].1);
    }
  }

  ghost predicate Known(nodes: map<nat, Entry>, chain: seq<nat>) {
    forall x | x in chain :: x in nodes
  }

  ghost function Carried(nodes: map<nat, Entry>, chain: seq<nat>): set<Version>
    requires Known(nodes, chain)
  {
    set x | x in chain :: nodes[x].v
  }

  ghost predicate HasBottom(s: State) {
    |s.chains| > 0 && Known(s.sh.nodes, s.chains[0])
  }

  /** The versions a lookup can reach: those of the nodes linked at the bottom level. */
  ghost function Linked(s: State): set<Version>
    requires HasBottom(s)
  {
    Carried(s.sh.nodes, s.chains[0])
  }

  lemma SortedIsKnown(nodes: map<nat, Entry>, chain: seq<nat>)
    requires Sorted(nodes, chain)
    ensures Known(nodes, chain)
  {
  }

  lemma ChainMembers(s: State)
    requires ChainsInv(s.sh, s.chains)
    ensures |s.chains| == MAX_HEIGHT && LevelInv(s.sh, s.chains[0], 0) && Sorted(s.sh.nodes, s.chains[0])
            && HasBottom(s)
  {
    hide Known;
    assert LevelInv(s.sh, s.chains[0], 0);
    SortedIsKnown(s.sh.nodes, s.chains[0]);
  }

  // ---- Linearizability ----

  /** In a sorted chain, the place between a node before the target and a node not before it splits the whole chain. */
  lemma PlaceSplits(nodes: map<nat, Entry>, chain: seq<nat>, key: Bytes, seqno: nat, at: nat)
    requires Sorted(nodes, chain) && at <= |chain|
    requires at > 0 ==> Before(nodes[chain[at - 1]].v, key, seqno)
    requires at < |chain| ==> !Before(nodes[chain[at]].v, key, seqno)
    ensures forall i | 0 <= i < |chain| :: Before(nodes[chain[i]].v, key, seqno) <==> i < at
  {
    KeyOrder();
    forall i | 0 <= i < |chain|
      ensures Before(nodes[chain[i]].v, key, seqno) <==> i < at
    {
      if i < at - 1 {
        assert Before(nodes[chain[i]].v, nodes[chain[at - 1]].v.key, nodes[chain[at - 1]].v.seqno);
      } else if at < i {
        assert Before(nodes[chain[at]].v, nodes[chain[i]].v.key, nodes[chain[i]].v.seqno);
      }
    }
  }

  /** Sequence numbers of a chain fit 64 bits and no two nodes share one. */
  ghost predicate Numbered(nodes: map<nat, Entry>, chain: seq<nat>)
    requires Known(nodes, chain)
  {
    && (forall x | x in chain :: nodes[x].v.seqno <= U64_MAX)
    && (forall x, y | x in chain && y in chain && nodes[x].v.seqno == nodes[y].v.seqno :: x == y)
  }

  /**
   * The first node that is not ahead of every version of a key carries the key's newest version, if the key is there
   * at all.
   */
  lemma FirstIsNewest(nodes: map<nat, Entry>, chain: seq<nat>, key: Bytes, at: nat)
    requires Sorted(nodes, chain) && Known(nodes, chain) && Numbered(nodes, chain) && at <= |chain|
    requires forall i | 0 <= i < |chain| :: Before(nodes[chain[i]].v, key, U64_MAX) <==> i < at
    ensures Newest(Carried(nodes, chain), key)
            == if at < |chain| && nodes[chain[at]].v.key == key then Some(nodes[chain[at]].v) else None
  {
    var all := Carried(nodes, chain);
    forall i | 0 <= i < |chain| && nodes[chain[i]].v.key == key
      ensures at <= i && nodes[chain[at]].v.key == key && nodes[chain[i]].v.seqno <= nodes[chain[at]].v.seqno
    {
      HolderIsAfter(nodes, chain, key, at, i);
    }
    if at < |chain| && nodes[chain[at]].v.key == key {
      assert chain[at] in chain;
      NewestIs(all, key, nodes[chain[at]].v);
    } else {
      assert !HasKey(all, key);
    }
  }

  lemma HolderIsAfter(nodes: map<nat, Entry>, chain: seq<nat>, key: Bytes, at: nat, i: nat)
    requires Sorted(nodes, chain) && Known(nodes, chain) && Numbered(nodes, chain) && at <= |chain|
    requires forall j | 0 <= j < |chain| :: Before(nodes[chain[j]].v, key, U64_MAX) <==> j < at
    requires i < |chain| && nodes[chain[i]].v.key == key
    ensures at <= i && nodes[chain[at]].v.key == key && nodes[chain[i]].v.seqno <= nodes[chain[at]].v.seqno
  {
    KeyOrder();
    assert chain[i] in chain;
    assert !Before(nodes[chain[i]].v, key, U64_MAX);
    if at < i {
      assert Before(nodes[chain[at]].v, key, nodes[chain[i]].v.seqno);
      assert !Before(nodes[chain[at]].v, key, U64_MAX);
    }
  }

  lemma NewestIs(all: set<Version>, key: Bytes, v: Version)
    requires v in all && v.key == key
    requires forall w | w in all && w.key == key :: w.seqno <= v.seqno && (w.seqno == v.seqno ==> w == v)
    ensures Newest(all, key) == Some(v)
  {
    assert HasKey(all, key);
  }

  lemma ChainNumbered(s: State)
    requires NodesInv(s.sh, s.owner, s.used) && |s.chains| > 0 && Sorted(s.sh.nodes, s.chains[0]) && HasBottom(s)
    ensures Numbered(s.sh.nodes, s.chains[0])
  {
  }

  /** The link read that ends a lookup stands right before the first node not before its target. */
  lemma LastReadSplits(s: State, node: nat, key: Bytes)
    requires |s.chains| > 0 && LevelInv(s.sh, s.chains[0], 0) && (forall i | i in s.sh.nodes :: i < NIL)
    requires PredOk(s.sh, s.chains[0], Find(key), node) && Readable(s.sh, node, 0)
    requires var next := Next(s.sh, node, 0); next == NIL || (next in s.sh.nodes && !Precedes(s.sh, next, Find(key)))
    ensures var chain, at := s.chains[0], PlaceAfter(s.chains[0], node);
            && Next(s.sh, node, 0) == After(chain, at)
            && forall i | 0 <= i < |chain| :: Before(s.sh.nodes[chain[i]].v, key, U64_MAX) <==> i < at
  {
    var chain: seq<nat> := s.chains[0];
    var at := PlaceAfter(chain, node);
    assert at < |chain| ==> chain[at] in s.sh.nodes;
    PlaceSplits(s.sh.nodes, chain, key, U64_MAX, at);
  }

  lemma NodesBelowNil(sh: Shared, owner: seq<nat>, used: set<nat>)
    requires NodesInv(sh, owner, used)
    ensures forall i | i in sh.nodes :: i < NIL
  {
  }

  lemma WalkerStandsBefore(s: State, t: nat)
    requires t in s.threads && s.threads[t].Walk? && ThreadInv(s, t, s.threads[t])
    ensures s.threads[t].level < |s.chains|
    ensures PredOk(s.sh, s.chains[s.threads[t].level], s.threads[t].job, s.threads[t].node)
  {
    hide PairsInv, JobInv, PredOk;
  }

  /** What the read that ends a lookup saw and answered. */
  lemma LastRead(s: State, t: nat, s': State)
    requires ReadLink(s, t, s') && s.threads[t].job.Find? && s'.threads[t].Answered?
    ensures var pc := s.threads[t];
            && pc.Walk? && pc.level == 0 && Readable(s.sh, pc.node, 0)
            && var next := Next(s.sh, pc.node, 0);
            && (next == NIL || (next in s.sh.nodes && !Precedes(s.sh, next, Find(pc.job.key))))
            && s'.threads[t].answer == if next == NIL || s.sh.nodes[next].v.key != pc.job.key then Missing
               else Shown(Some(s.sh.nodes[next].v))
  {
    hide Next, Readable, Precedes;
  }

  lemma AnswerIsNewest(s: State, t: nat, s': State)
    requires NodesInv(s.sh, s.owner, s.used) && ChainsInv(s.sh, s.chains) && t in s.threads
             && ThreadInv(s, t, s.threads[t])
    requires ReadLink(s, t, s') && s.threads[t].job.Find? && s'.threads[t].Answered?
    ensures HasBottom(s) && s'.threads[t].answer == Shown(Newest(Linked(s), s.threads[t].job.key))
  {
    hide NodesInv, LevelInv, ChainsInv, ThreadInv, ReadLink, Numbered, Newest, PredOk, Precedes, Next, Readable, Before,
        Sorted;
    var pc := s.threads[t];
    ChainMembers(s);
    ChainNumbered(s);
    NodesBelowNil(s.sh, s.owner, s.used);
    LastRead(s, t, s');
    WalkerStandsBefore(s, t);
    LastReadSplits(s, pc.node, pc.job.key);
    FirstIsNewest(s.sh.nodes, s.chains[0], pc.job.key, PlaceAfter(s.chains[0], pc.node));
    assert forall i | 0 <= i < |s.chains[0]| :: s.chains[0][i] < NIL;
  }

  /** A lookup returns the newest version of its key linked at the moment of its last bottom-level link read. */
  lemma LookupsAreLinearizable(states: seq<State>, steps: seq<(nat, Step)>, i: nat)
    requires Run(states, steps) && i < |steps| && steps[i].1.DoReadLink?
    requires var t := steps[i].0; t in states[i].threads && states[i].threads[t].Walk? && states[i].threads[t].job.Find?
    requires var t := steps[i].0; t in states[i + 1].threads && states[i + 1].threads[t].Answered?
    ensures var s, t := states[i], steps[i].0;
            HasBottom(s) && states[i + 1].threads[t].answer == Shown(Newest(Linked(s), s.threads[t].job.key))
  {
    hide NodesInv, ChainsInv, ThreadInv, ReadLink, Apart, Initial, Linked, HasBottom, Newest;
    RunHolds(states, steps, i);
    assert Takes(states[i], steps[i].0, states[i + 1], steps[i].1);
    AnswerIsNewest(states[i], steps[i].0, states[i + 1]);
  }

  ghost predicate BottomSwap(s: State, t: nat, s': State) {
    && SwapLink(s, t, s') && s.threads[t].level == 0
    && Next(s.sh, s.threads[t].preds[0], 0) == s.threads[t].succs[0]
  }

  lemma SplicedMembers(chain: seq<nat>, pred: nat, x: nat, y: nat)
    requires pred == HEAD || pred in chain
    ensures y in Spliced(chain, pred, x) <==> y in chain || y == x
  {
    var at := PlaceAfter(chain, pred);
    assert chain == chain[..at] + chain[at..];
  }

  lemma StepLinks(s: State, t: nat, s': State, step: Step, x: nat)
    requires |s.chains| == MAX_HEIGHT && Takes(s, t, s', step)
    ensures |s'.chains| == MAX_HEIGHT
    ensures x in s'.chains[0] <==>
              x in s.chains[0] || (step.DoSwapLink? && BottomSwap(s, t, s') && s.threads[t].ins.index == x)
  {
    hide Spliced, Next, Readable;
    if step.DoSwapLink? && BottomSwap(s, t, s') {
      SplicedMembers(s.chains[0], s.threads[t].preds[0], s.threads[t].ins.index, x);
    }
  }

  /** The bottom level holds exactly the nodes whose compare-and-swap on it succeeded. */
  lemma OnlyBottomSwapsLink(states: seq<State>, steps: seq<(nat, Step)>, i: nat, x: nat)
    requires Run(states, steps) && i < |steps|
    ensures |states[i].chains| > 0 && |states[i + 1].chains| > 0
    ensures var s, s', t := states[i], states[i + 1], steps[i].0;
            x in s'.chains[0] <==> x in s.chains[0] || (steps[i].1.DoSwapLink? && BottomSwap(s, t, s')
                                                        && s.threads[t].ins.index == x)
  {
    hide Takes, BottomSwap, Initial, NodesInv, Apart, ThreadInv;
    RunHolds(states, steps, i);
    StepLinks(states[i], steps[i].0, states[i + 1], steps[i].1, x);
  }

  /** In a sorted chain a version is the newest of its key exactly when the node before it has another key. */
  lemma NewestByNeighbour(nodes: map<nat, Entry>, chain: seq<nat>, at: nat)
    requires Sorted(nodes, chain) && Known(nodes, chain) && at < |chain|
    ensures nodes[chain[at]].v in Carried(nodes, chain)
    ensures NewestIn(nodes[chain[at]].v, Carried(nodes, chain)) <==>
              at == 0 || nodes[chain[at - 1]].v.key != nodes[chain[at]].v.key
  {
    KeyOrder();
    var v := nodes[chain[at]].v;
    var all := Carried(nodes, chain);
    assert chain[at] in chain;
    if at > 0 && nodes[chain[at - 1]].v.key == v.key {
      var w := nodes[chain[at - 1]].v;
      assert chain[at - 1] in chain && w in all;
      assert Before(w, v.key, v.seqno);
    } else {
      forall i | 0 <= i < |chain| && nodes[chain[i]].v.key == v.key
        ensures nodes[chain[i]].v.seqno <= v.seqno
      {
        OnlyFollowers(nodes, chain, at, i);
      }
    }
  }

  lemma OnlyFollowers(nodes: map<nat, Entry>, chain: seq<nat>, at: nat, i: nat)
    requires Sorted(nodes, chain) && at < |chain| && i < |chain| && nodes[chain[i]].v.key == nodes[chain[at]].v.key
    requires at == 0 || nodes[chain[at - 1]].v.key != nodes[chain[at]].v.key
    ensures nodes[chain[i]].v.seqno <= nodes[chain[at]].v.seqno
  {
    KeyOrder();
    var v, w := nodes[chain[at]].v, nodes[chain[i]].v;
    assert i < at ==> Before(w, v.key, v.seqno);
    assert i < at - 1 ==> Before(w, nodes[chain[at - 1]].v.key, nodes[chain[at - 1]].v.seqno);
    assert at > 0 ==> Before(nodes[chain[at - 1]].v, v.key, v.seqno);
    assert at < i ==> Before(v, w.key, w.seqno);
  }

  lemma ReportIsRight(s: State, t: nat, s': State)
    requires |s.chains| == MAX_HEIGHT && BottomSwap(s, t, s') && |s'.chains| > 0 && Sorted(s'.sh.nodes, s'.chains[0])
             && HasBottom(s')
    requires ThreadInv(s, t, s.threads[t])
    ensures var ins := s.threads[t].ins;
            && ins.index in s'.newest && ins.v in Linked(s') && (s'.newest[ins.index] <==> NewestIn(ins.v, Linked(s')))
  {
    hide PairsInv, NewestIn, Readable, Next;
    var pc := s.threads[t];
    var at := PlaceAfter(s.chains[0], pc.preds[0]);
    assert s'.chains[0] == s.chains[0][..at] + [pc.ins.index] + s.chains[0][at..];
    assert s.sh.nodes[pc.ins.index].v == pc.ins.v;
    NewestByNeighbour(s'.sh.nodes, s'.chains[0], at);
  }

  /** An insert reports whether, at its bottom-level swap, no newer version of its key was linked. */
  lemma InsertsReportNewest(states: seq<State>, steps: seq<(nat, Step)>, i: nat)
    requires Run(states, steps) && i < |steps| && steps[i].1.DoSwapLink?
             && BottomSwap(states[i], steps[i].0, states[i + 1])
    ensures var s', ins := states[i + 1], states[i].threads[steps[i].0].ins;
            && ins.index in s'.newest && HasBottom(s')
            && ins.v in Linked(s') && (s'.newest[ins.index] <==> NewestIn(ins.v, Linked(s')))
  {
    hide NodesInv, ThreadInv, LevelInv, Apart, Initial, Takes, HasBottom, Linked, Next, Readable, NewestIn, Sorted;
    RunHolds(states, steps, i);
    RunHolds(states, steps, i + 1);
    ChainMembers(states[i + 1]);
    ReportIsRight(states[i], steps[i].0, states[i + 1]);
  }

  // ---- Towers and upper levels ----

  /** Levels are sorted and nested, nothing is linked at or above the top, towers share no slot. */
  lemma LevelsAreNested(states: seq<State>, steps: seq<(nat, Step)>, i: nat)
    requires Run(states, steps) && i < |states|
    ensures var s := states[i];
            && |s.chains| == MAX_HEIGHT
            && (forall l | 0 <= l < MAX_HEIGHT :: Sorted(s.sh.nodes, s.chains[l]) && Threaded(s.sh, s.chains[l], l))
            && (forall l, m, x | 0 <= m < l < MAX_HEIGHT && x in s.chains[l] :: x in s.chains[m])
            && (forall l | s.sh.top <= l < MAX_HEIGHT :: s.chains[l] == [])
            && (forall a: nat, l: nat, b: nat, m: nat | Readable(s.sh, a, l) && Readable(s.sh, b, m)
                && (a != b || l != m) ::
                  Slot(s.sh, a, l) != Slot(s.sh, b, m))
  {
    var s := states[i];
    RunHolds(states, steps, i);
    hide NodesInv, Sorted, Threaded;
    forall l | 0 <= l < MAX_HEIGHT
      ensures Sorted(s.sh.nodes, s.chains[l]) && Threaded(s.sh, s.chains[l], l)
    {
      assert LevelInv(s.sh, s.chains[l], l);
    }
    forall a: nat, l: nat, b: nat, m: nat | Readable(s.sh, a, l) && Readable(s.sh, b, m) && (a != b || l != m)
      ensures Slot(s.sh, a, l) != Slot(s.sh, b, m)
    {
      SlotsDiffer(s.sh, s.owner, s.used, a, l, b, m);
    }
  }

  /** No thread ever reads or swaps a link at or past the height of the node it stands on, and no walk gets stuck. */
  lemma ReadsStayInsideTowers(states: seq<State>, steps: seq<(nat, Step)>, i: nat, t: nat)
    requires Run(states, steps) && i < |states| && t in states[i].threads
    ensures var s, pc := states[i], states[i].threads[t];
            && (pc.Walk? ==> Readable(s.sh, pc.node, pc.level) && exists s' :: ReadLink(s, t, s'))
            && (pc.Store? ==> Readable(s.sh, pc.ins.index, pc.level) && exists s' :: StoreLink(s, t, s'))
            && (pc.Swap? ==>
                  && pc.level < |pc.preds| && Readable(s.sh, pc.preds[pc.level], pc.level)
                  && exists s' :: SwapLink(s, t, s'))
  {
    hide NodesInv, ChainsInv, ThreadInv, Apart, Takes, Initial, ReadLink, StoreLink, SwapLink, Readable;
    RunHolds(states, steps, i);
    var s, pc := states[i], states[i].threads[t];
    assert ThreadInv(s, t, pc);
    if pc.Walk? {
      WalkCanStep(s, t);
    } else if pc.Store? {
      StoreCanStep(s, t);
    } else if pc.Swap? {
      SwapCanStep(s, t);
    }
  }

  lemma StoreCanStep(s: State, t: nat)
    requires NodesInv(s.sh, s.owner, s.used) && t in s.threads && s.threads[t].Store? && ThreadInv(s, t, s.threads[t])
    ensures Readable(s.sh, s.threads[t].ins.index, s.threads[t].level) && exists s' :: StoreLink(s, t, s')
  {
    hide NodesInv, ThreadInv;
    StoreFacts(s, t);
    var pc := s.threads[t];
    var s' := Goto(s, t, Swap(pc.ins, pc.level, pc.preds, pc.succs)).(
                sh := s.sh.(links := s.sh.links[pc.ins.tower + pc.level := pc.succs[pc.level]]));
    assert StoreLink(s, t, s');
  }

  lemma WalkCanStep(s: State, t: nat)
    requires NodesInv(s.sh, s.owner, s.used) && ChainsInv(s.sh, s.chains) && t in s.threads && s.threads[t].Walk?
             && ThreadInv(s, t, s.threads[t])
    ensures Readable(s.sh, s.threads[t].node, s.threads[t].level) && exists s' :: ReadLink(s, t, s')
  {
    hide NodesInv, LevelInv;
    var pc := s.threads[t];
    StandsOnTower(s, pc.job, pc.level, pc.node);
    NextIsLinked(s, pc.job, pc.level, pc.node);
    var next := Next(s.sh, pc.node, pc.level);
    var preds, succs := pc.preds[pc.level := pc.node], pc.succs[pc.level := next];
    var s' := if next != NIL && Precedes(s.sh, next, pc.job) then Goto(s, t, pc.(node := next))
              else if pc.level > 0 then Goto(s, t, Walk(pc.job, pc.level - 1, pc.node, preds, succs))
              else Goto(s, t, Landed(s.sh, pc.job, preds, succs));
    assert ReadLink(s, t, s');
  }

  lemma SwapCanStep(s: State, t: nat)
    requires NodesInv(s.sh, s.owner, s.used) && ChainsInv(s.sh, s.chains) && t in s.threads && s.threads[t].Swap?
             && ThreadInv(s, t, s.threads[t])
    ensures var pc := s.threads[t];
            pc.level < |pc.preds| && Readable(s.sh, pc.preds[pc.level], pc.level) && exists s' :: SwapLink(s, t, s')
  {
    hide NodesInv, LevelInv;
    var pc := s.threads[t];
    var pred := pc.preds[pc.level];
    StandsOnTower(s, Link(pc.ins, pc.level), pc.level, pred);
    if Next(s.sh, pred, pc.level) == pc.succs[pc.level] {
      var s' := Goto(s, t, if pc.level + 1 < pc.ins.height then Store(pc.ins, pc.level + 1, pc.preds, pc.succs)
                     else Inserted(pc.ins)).(
                  sh := s.sh.(links := s.sh.links[Slot(s.sh, pred, pc.level) := pc.ins.index]),
                  chains := s.chains[pc.level := Spliced(s.chains[pc.level], pred, pc.ins.index)],
                  newest := if pc.level > 0 then s.newest
                            else s.newest[pc.ins.index := pred == HEAD || s.sh.nodes[pred].v.key != pc.ins.v.key]);
      assert SwapLink(s, t, s');
    } else {
      assert SwapLink(s, t, Goto(s, t, Descend(Link(pc.ins, pc.level))));
    }
  }
}
