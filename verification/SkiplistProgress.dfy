/** Lock-freedom: a compare-and-swap fails only because another one succeeded, and without new calls every run ends. */
module SkiplistProgress {
  import opened Skiplist
  import opened SkiplistInvariant
  import opened SkiplistSteps
  import opened SkiplistLinking
  import opened SkiplistSafety
  import opened Sums
  import C = SkiplistConverge

  // ---- What a thread still has to win ----

  /** Successes still to come: reserving a tower, raising the top, and one swap for every level left to link. */
  function Wins(pc: Pc): nat {
    match pc
    case Numbered(_, _) => MAX_HEIGHT + 2
    case Sizing(_, _, _, _) => MAX_HEIGHT + 2
    case Placed(ins) => ins.height + 1
    case Published(ins) => ins.height + 1
    case Raising(ins, _) => ins.height + 1
    case Descend(job) => JobWins(job)
    case Walk(job, _, _, _, _) => JobWins(job)
    case Store(ins, level, _, _) => LinkWins(ins, level)
    case Swap(ins, level, _, _) => LinkWins(ins, level)
    case _ => 0
  }

  function LinkWins(ins: Ins, level: nat): nat {
    if level < ins.height then ins.height - level else 0
  }

  function JobWins(job: Job): nat {
    if job.Link? then LinkWins(job.ins, job.level) else 0
  }

  // ---- What a thread still has to do before it wins or returns ----

  /** Links a walk reads at most on the levels below `level`. */
  function Floors(level: nat, cap: nat): nat {
    if level == 0 then 0 else cap + 1 + Floors(level - 1, cap)
  }

  /** A whole walk from the top. */
  function WalkCost(cap: nat): nat {
    Floors(MAX_HEIGHT, cap) + 4
  }

  ghost predicate Holds(sh: Shared, pred: nat, level: nat, succ: nat) {
    Readable(sh, pred, level) && Next(sh, pred, level) == succ
  }

  /** The pair recorded for a level, if the list no longer holds it, costs another walk. */
  ghost function Redo(sh: Shared, cap: nat, level: nat, preds: seq<nat>, succs: seq<nat>): nat {
    if level < |preds| && level < |succs| && Holds(sh, preds[level], level, succs[level]) then 0 else WalkCost(cap)
  }

  ghost function Tail(sh: Shared, cap: nat, job: Job, level: nat, preds: seq<nat>, succs: seq<nat>): nat {
    if job.Link? && level < job.level then 3 + Redo(sh, cap, job.level, preds, succs) else 3
  }

  /** How far along its level a node is. */
  ghost function Place(chain: seq<nat>, node: nat): nat {
    if node == HEAD || node !in chain then 0 else IndexOf(chain, node) + 1
  }

  ghost function Ahead(cap: nat, chains: seq<seq<nat>>, level: nat, node: nat): nat {
    if level < |chains| && Place(chains[level], node) <= cap then cap - Place(chains[level], node) else 0
  }

  ghost function Rank(s: State, cap: nat, pc: Pc): nat {
    match pc
    case Idle => 0
    case Numbered(_, _) => 2
    case Sizing(_, _, _, start) => if start == s.sh.nextLink then 1 else 2
    case Placed(_) => 4
    case Published(_) => 3
    case Raising(ins, seen) => if ins.height <= seen || s.sh.top == seen then 1 else 2
    case Descend(_) => WalkCost(cap)
    case Walk(job, level, node, preds, succs) =>
      Floors(level, cap) + Ahead(cap, s.chains, level, node) + Tail(s.sh, cap, job, level, preds, succs)
    case Store(_, level, preds, succs) => 2 + Redo(s.sh, cap, level, preds, succs)
    case Swap(_, level, preds, succs) => 1 + Redo(s.sh, cap, level, preds, succs)
    case Inserted(_) => 1
    case Answered(_) => 1
  }

  lemma {:induction false} FloorsGrow(low: nat, high: nat, cap: nat)
    requires low < high
    ensures Floors(low, cap) + cap + 1 <= Floors(high, cap)
    decreases high
  {
    if low < high - 1 {
      FloorsGrow(low, high - 1, cap);
    }
  }

  /** Every rank a reachable thread can have. */
  function MostRank(cap: nat): nat {
    2 * WalkCost(cap)
  }

  lemma RankBounded(s: State, cap: nat, t: nat)
    requires Inv(s) && t in s.threads
    ensures Rank(s, cap, s.threads[t]) <= MostRank(cap)
  {
    hide Floors, NodesInv, ChainsInv, Apart, Holds, Place;
    var pc := s.threads[t];
    assert ThreadInv(s, t, pc);
    if pc.Walk? {
      FloorsGrow(pc.level, MAX_HEIGHT, cap);
    }
  }

  // ---- One step ----

  /** A step of a call under way. */
  predicate Continues(step: Step) {
    !step.DoTakeNode? && !step.DoStartFind?
  }

  ghost predicate Fit(chains: seq<seq<nat>>, cap: nat, wins: nat) {
    forall l | 0 <= l < |chains| :: |chains[l]| + wins <= cap
  }

  /** The other threads see what they saw: the counters, the levels, and every link of a linked node. */
  ghost predicate Unseen(s: State, s': State) {
    && s'.sh.nextLink == s.sh.nextLink && s'.sh.top == s.sh.top && s'.chains == s.chains && |s.chains| == MAX_HEIGHT
    && forall l: nat, p: nat | l < MAX_HEIGHT && (p == HEAD || p in s.chains[l]) && Readable(s.sh, p, l) ::
         Readable(s'.sh, p, l) && Next(s'.sh, p, l) == Next(s.sh, p, l)
  }

  lemma LinkedIsReadable(s: State, l: nat, p: nat)
    requires Inv(s) && l < MAX_HEIGHT && |s.chains| == MAX_HEIGHT && (p == HEAD || p in s.chains[l])
    ensures Readable(s.sh, p, l)
  {
    hide NodesInv, ThreadInv, Apart, Sorted;
    assert LevelInv(s.sh, s.chains[l], l);
    if p != HEAD {
      var i :| 0 <= i < |s.chains[l]| && s.chains[l][i] == p;
    }
  }

  lemma RedoUnseen(s: State, s': State, cap: nat, job: Job, from: nat, level: nat, preds: seq<nat>, succs: seq<nat>)
    requires Inv(s) && Unseen(s, s') && PairsInv(s, job, preds, succs, from) && from <= level < MAX_HEIGHT
    ensures Redo(s'.sh, cap, level, preds, succs) == Redo(s.sh, cap, level, preds, succs)
  {
    hide Inv, Floors, SuccOk, Next, Readable;
    assert PredOk(s.sh, s.chains[level], job, preds[level]);
    LinkedIsReadable(s, level, preds[level]);
  }

  lemma RankUnseen(s: State, s': State, cap: nat, u: nat)
    requires Inv(s) && Unseen(s, s') && u in s.threads
    ensures Rank(s', cap, s.threads[u]) == Rank(s, cap, s.threads[u])
  {
    hide NodesInv, ChainsInv, Apart, PairsInv, Floors, Redo, Unseen, Place, InsInv;
    var pc := s.threads[u];
    assert ThreadInv(s, u, pc);
    SameCounters(s, s');
    TopBound(s);
    match pc {
      case Walk(job, level, node, preds, succs) =>
        if job.Link? && level < job.level {
          RedoUnseen(s, s', cap, job, level + 1, job.level, preds, succs);
        }
      case Store(ins, level, preds, succs) => RedoUnseen(s, s', cap, Link(ins, level), level, level, preds, succs);
      case Swap(ins, level, preds, succs) => RedoUnseen(s, s', cap, Link(ins, level), level, level, preds, succs);
      case _ =>
    }
  }

  lemma SameCounters(s: State, s': State)
    requires Unseen(s, s')
    ensures s'.sh.nextLink == s.sh.nextLink && s'.sh.top == s.sh.top && s'.chains == s.chains
  {
  }

  /** The thread wins, or nobody else notices and it comes closer to its next win. */
  ghost predicate Advances(s: State, t: nat, s': State, cap: nat) {
    && t in s.threads && t in s'.threads && s'.threads == s.threads[t := s'.threads[t]] && |s'.chains| == |s.chains|
    && (|| (&& Wins(s'.threads[t]) < Wins(s.threads[t])
            && forall l | 0 <= l < |s.chains| :: |s'.chains[l]| <= |s.chains[l]| + 1)
        || (&& Wins(s'.threads[t]) == Wins(s.threads[t]) && Unseen(s, s')
            && Rank(s', cap, s'.threads[t]) < Rank(s, cap, s.threads[t])))
  }

  /** A step that touches nothing but the thread itself. */
  lemma OnlyMoves(s: State, s': State)
    requires s' == s.(threads := s'.threads) && |s.chains| == MAX_HEIGHT
    ensures Unseen(s, s')
  {
  }

  lemma HasLevels(s: State)
    requires Inv(s)
    ensures |s.chains| == MAX_HEIGHT
  {
    hide NodesInv, ThreadInv, Apart, LevelInv;
  }

  lemma ReserveAdvances(s: State, t: nat, s': State, cap: nat)
    requires Inv(s) && ReserveTower(s, t, s')
    ensures Advances(s, t, s', cap)
  {
    hide NodesInv, ChainsInv, Apart, Unseen;
    assert ThreadInv(s, t, s.threads[t]);
    HasLevels(s);
    if s.sh.nextLink != s.threads[t].start {
      OnlyMoves(s, s');
    }
  }

  lemma PublishAdvances(s: State, t: nat, s': State, cap: nat)
    requires Inv(s) && Publish(s, t, s')
    ensures Advances(s, t, s', cap)
  {
    hide NodesInv, ChainsInv, Apart;
    HasLevels(s);
    PlacedIsNew(s, t);
  }

  lemma RaiseAdvances(s: State, t: nat, s': State, cap: nat)
    requires Inv(s) && RaiseTop(s, t, s')
    ensures Advances(s, t, s', cap)
  {
    hide NodesInv, ChainsInv, Apart, Unseen, InsInv;
    HasLevels(s);
    var pc := s.threads[t];
    if pc.ins.height > pc.seen && s.sh.top != pc.seen {
      OnlyMoves(s, s');
    }
  }

  lemma StartWalkAdvances(s: State, t: nat, s': State, cap: nat)
    requires Inv(s) && StartWalk(s, t, s')
    ensures Advances(s, t, s', cap)
  {
    hide NodesInv, ChainsInv, Apart, Unseen, InsInv, Floors, Redo, Place;
    HasLevels(s);
    OnlyMoves(s, s');
    assert ThreadInv(s, t, s.threads[t]);
    TopBound(s);
    FloorsGrow(s.sh.top - 1, MAX_HEIGHT, cap);
  }

  lemma PlaceOf(s: State, level: nat, i: nat)
    requires Inv(s) && level < MAX_HEIGHT && |s.chains| == MAX_HEIGHT && i < |s.chains[level]|
    ensures Place(s.chains[level], s.chains[level][i]) == i + 1
  {
    hide NodesInv, ThreadInv, Apart, Threaded;
    assert LevelInv(s.sh, s.chains[level], level);
    var chain := s.chains[level];
    var j := IndexOf(chain, chain[i]);
    if j != i {
      SortedDistinct(s.sh.nodes, chain, i, j);
    }
  }

  /** A link leads one place further, or to the end. */
  lemma NextPlace(s: State, level: nat, node: nat)
    requires Inv(s) && level < MAX_HEIGHT && |s.chains| == MAX_HEIGHT && (node == HEAD || node in s.chains[level])
    ensures Readable(s.sh, node, level)
    ensures var next := Next(s.sh, node, level);
            next != NIL ==> Place(s.chains[level], next) == Place(s.chains[level], node) + 1 <= |s.chains[level]|
  {
    hide NodesInv, ThreadInv, Apart, Sorted, Place;
    assert LevelInv(s.sh, s.chains[level], level);
    HeadPlace(s.chains[level]);
    if node == HEAD {
      if s.chains[level] != [] {
        PlaceOf(s, level, 0);
      }
    } else {
      var i :| 0 <= i < |s.chains[level]| && s.chains[level][i] == node;
      PlaceOf(s, level, i);
      if i + 1 < |s.chains[level]| {
        PlaceOf(s, level, i + 1);
      }
    }
  }

  lemma HeadPlace(chain: seq<nat>)
    ensures Place(chain, HEAD) == 0
  {
  }

  lemma WalkFacts(s: State, t: nat)
    requires Inv(s) && t in s.threads && s.threads[t].Walk?
    ensures var pc := s.threads[t];
            && |s.chains| == MAX_HEIGHT && pc.level < MAX_HEIGHT && (pc.node == HEAD || pc.node in s.chains[pc.level])
            && |pc.preds| == |pc.succs| == MAX_HEIGHT && (pc.job.Link? ==> pc.job.level < MAX_HEIGHT)
  {
    hide NodesInv, ChainsInv, Apart, InsInv;
    assert ThreadInv(s, t, s.threads[t]);
    TopBound(s);
  }

  lemma ReadAdvances(s: State, t: nat, s': State, cap: nat)
    requires Inv(s) && ReadLink(s, t, s') && Fit(s.chains, cap, 0)
    ensures Advances(s, t, s', cap)
  {
    hide Inv, Unseen, Redo, Place, Precedes, Readable, Next;
    WalkFacts(s, t);
    OnlyMoves(s, s');
    var pc := s.threads[t];
    NextPlace(s, pc.level, pc.node);
    var next := Next(s.sh, pc.node, pc.level);
    if !(next != NIL && Precedes(s.sh, next, pc.job)) {
      var preds, succs := pc.preds[pc.level := pc.node], pc.succs[pc.level := next];
      if pc.job.Link? {
        RecordsPair(s.sh, cap, pc, preds, succs, next);
      }
    }
  }

  /** What a read records holds; what was recorded above it is as it was. */
  lemma RecordsPair(sh: Shared, cap: nat, pc: Pc, preds: seq<nat>, succs: seq<nat>, next: nat)
    requires pc.Walk? && pc.job.Link? && |pc.preds| == |pc.succs| == MAX_HEIGHT && pc.level < MAX_HEIGHT
    requires pc.job.level < MAX_HEIGHT && Readable(sh, pc.node, pc.level) && Next(sh, pc.node, pc.level) == next
    requires preds == pc.preds[pc.level := pc.node] && succs == pc.succs[pc.level := next]
    ensures pc.level == pc.job.level ==> Redo(sh, cap, pc.job.level, preds, succs) == 0
    ensures pc.level < pc.job.level ==>
              Redo(sh, cap, pc.job.level, preds, succs) == Redo(sh, cap, pc.job.level, pc.preds, pc.succs)
  {
    hide Readable, Next, Floors;
  }

  lemma StoreAdvances(s: State, t: nat, s': State, cap: nat)
    requires Inv(s) && StoreLink(s, t, s')
    ensures Advances(s, t, s', cap)
  {
    hide Inv, Unseen, Redo;
    StoreUnseen(s, t, s');
    StorePairs(s, t);
    var pc := s.threads[t];
    RedoUnseen(s, s', cap, Link(pc.ins, pc.level), pc.level, pc.level, pc.preds, pc.succs);
    HasLevels(s);
  }

  lemma StorePairs(s: State, t: nat)
    requires Inv(s) && t in s.threads && s.threads[t].Store?
    ensures var pc := s.threads[t];
            PairsInv(s, Link(pc.ins, pc.level), pc.preds, pc.succs, pc.level) && pc.level < MAX_HEIGHT
  {
    hide NodesInv, ChainsInv, Apart, InsInv, PairsInv;
    assert ThreadInv(s, t, s.threads[t]);
    TopBound(s);
  }

  /** The link a thread writes is its own node's, which is not linked at that level. */
  lemma StoreUnseen(s: State, t: nat, s': State)
    requires Inv(s) && StoreLink(s, t, s')
    ensures Unseen(s, s')
  {
    assert ThreadInv(s, t, s.threads[t]);
    hide NodesInv, ChainsInv, ThreadInv, Apart, Next, Readable;
    StoreFacts(s, t);
    var pc := s.threads[t];
    forall l: nat, p: nat | l < MAX_HEIGHT && (p == HEAD || p in s.chains[l]) && Readable(s.sh, p, l)
      ensures Readable(s'.sh, p, l) && Next(s'.sh, p, l) == Next(s.sh, p, l)
    {
      WriteKeepsLink(s.sh, s.owner, s.used, p, l, pc.ins.index, pc.level, pc.succs[pc.level]);
    }
  }

  lemma SwapAdvances(s: State, t: nat, s': State, cap: nat)
    requires Inv(s) && SwapLink(s, t, s')
    ensures Advances(s, t, s', cap)
  {
    hide NodesInv, ChainsInv, Apart, Unseen, InsInv, Floors, PairsInv, Next, Readable;
    HasLevels(s);
    assert ThreadInv(s, t, s.threads[t]);
    var pc := s.threads[t];
    var pred := pc.preds[pc.level];
    if Next(s.sh, pred, pc.level) != pc.succs[pc.level] {
      OnlyMoves(s, s');
    }
  }

  lemma StepAdvances(s: State, t: nat, s': State, step: Step, cap: nat)
    requires Inv(s) && Takes(s, t, s', step) && Continues(step) && Fit(s.chains, cap, 0)
    ensures Advances(s, t, s', cap)
  {
    hide Inv, Advances, ReserveTower, Publish, RaiseTop, StartWalk, ReadLink, StoreLink, SwapLink;
    match step {
      case DoLoadNextLink(want) => LoadNextAdvances(s, t, s', want, cap);
      case DoReserveTower => ReserveAdvances(s, t, s', cap);
      case DoPublish => PublishAdvances(s, t, s', cap);
      case DoLoadTop => LoadTopAdvances(s, t, s', cap);
      case DoRaiseTop => RaiseAdvances(s, t, s', cap);
      case DoStartWalk => StartWalkAdvances(s, t, s', cap);
      case DoReadLink => ReadAdvances(s, t, s', cap);
      case DoStoreLink => StoreAdvances(s, t, s', cap);
      case DoSwapLink => SwapAdvances(s, t, s', cap);
      case DoReturn => ReturnAdvances(s, t, s', cap);
    }
  }

  lemma LoadNextAdvances(s: State, t: nat, s': State, want: nat, cap: nat)
    requires Inv(s) && LoadNextLink(s, t, s', want)
    ensures Advances(s, t, s', cap)
  {
    hide Inv, Unseen;
    HasLevels(s);
    OnlyMoves(s, s');
  }

  lemma LoadTopAdvances(s: State, t: nat, s': State, cap: nat)
    requires Inv(s) && LoadTop(s, t, s')
    ensures Advances(s, t, s', cap)
  {
    hide Inv, Unseen;
    HasLevels(s);
    OnlyMoves(s, s');
  }

  lemma ReturnAdvances(s: State, t: nat, s': State, cap: nat)
    requires Inv(s) && Return(s, t, s')
    ensures Advances(s, t, s', cap)
  {
    hide Inv, Unseen;
    HasLevels(s);
    OnlyMoves(s, s');
  }

  // ---- All threads together ----

  function WinsAt(threads: map<nat, Pc>): nat -> nat {
    (t: nat) => if t in threads then Wins(threads[t]) else 0
  }

  ghost function RankAt(s: State, cap: nat): nat -> nat {
    (t: nat) => if t in s.threads then Rank(s, cap, s.threads[t]) else 0
  }

  ghost function AllWins(s: State): nat {
    Sum(s.threads.Keys, WinsAt(s.threads))
  }

  ghost function AllRanks(s: State, cap: nat): nat {
    Sum(s.threads.Keys, RankAt(s, cap))
  }

  /** A whole round of everybody's work, which one win may undo. */
  ghost function RoundCost(s: State, cap: nat): nat {
    MostRank(cap) * |s.threads| + 1
  }

  function Times(a: nat, b: nat): nat {
    a * b
  }

  /** How many steps can still follow without a new call, if no level gets longer than `cap`. */
  ghost function Left(s: State, cap: nat): nat {
    Times(AllWins(s), RoundCost(s, cap)) + AllRanks(s, cap)
  }

  /** One entry of a sum changes, the others do not grow. */
  lemma SumStep(keys: set<nat>, g: nat -> nat, h: nat -> nat, t: nat)
    requires t in keys && forall u | u in keys && u != t :: h(u) <= g(u)
    ensures Sum(keys, h) + g(t) <= Sum(keys, g) + h(t)
  {
    SumWithout(keys, g, t);
    SumWithout(keys, h, t);
    SumAtMost(keys - {t}, h, g);
  }

  lemma RanksBounded(s: State, cap: nat)
    requires Inv(s)
    ensures AllRanks(s, cap) < RoundCost(s, cap)
  {
    hide Inv, Rank, MostRank;
    forall t | t in s.threads.Keys
      ensures RankAt(s, cap)(t) <= MostRank(cap)
    {
      RankBounded(s, cap, t);
    }
    SumBound(s.threads.Keys, RankAt(s, cap), MostRank(cap));
    assert |s.threads.Keys| == |s.threads|;
  }

  lemma WinsStep(s: State, t: nat, s': State, cap: nat)
    requires Advances(s, t, s', cap)
    ensures s'.threads.Keys == s.threads.Keys && |s'.threads| == |s.threads|
    ensures AllWins(s') + Wins(s.threads[t]) <= AllWins(s) + Wins(s'.threads[t])
  {
    hide Rank, Unseen, Wins;
    assert s'.threads.Keys == s.threads.Keys;
    assert |s'.threads| == |s'.threads.Keys| == |s.threads.Keys| == |s.threads|;
    SumStep(s.threads.Keys, WinsAt(s.threads), WinsAt(s'.threads), t);
  }

  lemma RanksStep(s: State, t: nat, s': State, cap: nat)
    requires Inv(s) && Advances(s, t, s', cap) && Unseen(s, s')
    ensures AllRanks(s', cap) + Rank(s, cap, s.threads[t]) <= AllRanks(s, cap) + Rank(s', cap, s'.threads[t])
  {
    hide Inv, Rank, Unseen, Wins;
    assert s'.threads.Keys == s.threads.Keys;
    forall u | u in s.threads.Keys && u != t
      ensures RankAt(s', cap)(u) <= RankAt(s, cap)(u)
    {
      RankUnseen(s, s', cap, u);
    }
    SumStep(s.threads.Keys, RankAt(s, cap), RankAt(s', cap), t);
  }

  lemma OneRoundLess(wins: nat, wins': nat, cost: nat, ranks: nat, ranks': nat)
    requires wins' < wins && ranks' < cost
    ensures Times(wins', cost) + ranks' < Times(wins, cost) + ranks
  {
    NotMore(wins, wins' + 1, cost);
    assert Times(wins' + 1, cost) == Times(wins', cost) + cost;
    hide Times;
  }

  /** Every step of a call under way lowers what is left. */
  lemma StepLowers(s: State, t: nat, s': State, step: Step, cap: nat)
    requires Inv(s) && Inv(s') && Takes(s, t, s', step) && Continues(step) && Fit(s.chains, cap, AllWins(s))
    ensures Fit(s'.chains, cap, AllWins(s')) && Left(s', cap) < Left(s, cap)
  {
    hide Inv, Takes, AllWins, AllRanks, Rank, Wins, Unseen, MostRank, Times;
    assert Fit(s.chains, cap, 0);
    StepAdvances(s, t, s', step, cap);
    WinsStep(s, t, s', cap);
    RanksBounded(s', cap);
    if Wins(s'.threads[t]) < Wins(s.threads[t]) {
      OneRoundLess(AllWins(s), AllWins(s'), RoundCost(s, cap), AllRanks(s, cap), AllRanks(s', cap));
    } else {
      SameLevels(s, s');
      RanksStep(s, t, s', cap);
      NotMore(AllWins(s), AllWins(s'), RoundCost(s, cap));
    }
  }

  lemma SameLevels(s: State, s': State)
    requires Unseen(s, s')
    ensures s'.chains == s.chains
  {
  }

  lemma NotMore(wins: nat, wins': nat, cost: nat)
    requires wins' <= wins
    ensures Times(wins', cost) <= Times(wins, cost)
  {
  }

  /** Room for every level to take every node still to be linked. */
  function Lengths(chains: seq<seq<nat>>): nat {
    if chains == [] then 0 else |chains[0]| + Lengths(chains[1..])
  }

  ghost function Cap(s: State): nat {
    Lengths(s.chains) + AllWins(s)
  }

  lemma {:induction false} LengthOf(chains: seq<seq<nat>>, l: nat)
    requires l < |chains|
    ensures |chains[l]| <= Lengths(chains)
  {
    if l > 0 {
      LengthOf(chains[1..], l - 1);
    }
  }

  lemma CapFits(s: State)
    ensures Fit(s.chains, Cap(s), AllWins(s))
  {
    hide AllWins;
    forall l | 0 <= l < |s.chains|
      ensures |s.chains[l]| + AllWins(s) <= Cap(s)
    {
      LengthOf(s.chains, l);
    }
  }

  lemma {:induction false} LeftDrops(states: seq<State>, steps: seq<(nat, Step)>, i: nat, j: nat, cap: nat)
    requires Run(states, steps) && i <= j < |states| && forall k | i <= k < j :: Continues(steps[k].1)
    requires Fit(states[i].chains, cap, AllWins(states[i]))
    ensures Left(states[j], cap) + (j - i) <= Left(states[i], cap)
    ensures Fit(states[j].chains, cap, AllWins(states[j]))
    decreases j
  {
    hide Inv, Takes, Initial, Left, AllWins, Fit;
    if i < j {
      LeftDrops(states, steps, i, j - 1, cap);
      RunHolds(states, steps, j - 1);
      RunHolds(states, steps, j);
      StepLowers(states[j - 1], steps[j - 1].0, states[j], steps[j - 1].1, cap);
    }
  }

  /** However threads interleave, once no new call starts only so many steps are left: retries cannot go on forever. */
  lemma CallsReturn(states: seq<State>, steps: seq<(nat, Step)>, i: nat, j: nat)
    requires Run(states, steps) && i <= j < |states| && forall k | i <= k < j :: Continues(steps[k].1)
    ensures j - i <= Left(states[i], Cap(states[i]))
  {
    hide Takes, Initial, Left, Fit, Cap;
    CapFits(states[i]);
    LeftDrops(states, steps, i, j, Cap(states[i]));
  }

  ghost predicate CanStep(s: State, t: nat) {
    exists s', step :: Continues(step) && Takes(s, t, s', step)
  }

  lemma Steps(s: State, t: nat, s': State, step: Step)
    requires Continues(step) && Takes(s, t, s', step)
    ensures CanStep(s, t)
  {
  }

  /** Places where the next step needs nothing of the links, the top or the arena. */
  predicate Alone(pc: Pc) {
    pc.Numbered? || pc.Placed? || pc.Published? || pc.Inserted? || pc.Answered? || pc.Descend?
  }

  lemma OwnCanStep(s: State, t: nat)
    requires Inv(s) && t in s.threads
    ensures Alone(s.threads[t]) ==> CanStep(s, t)
  {
    hide NodesInv, ChainsInv, ThreadInv, Apart, CanStep;
    TopBound(s);
    var pc := s.threads[t];
    match pc {
      case Numbered(v, i) => Steps(s, t, Goto(s, t, Sizing(v, i, 1, s.sh.nextLink)), DoLoadNextLink(1));
      case Placed(ins) =>
        var sh := s.sh.(nodes := s.sh.nodes[ins.index := Entry(ins.v, ins.tower, ins.height)]);
        Steps(s, t, Goto(s, t, Published(ins)).(sh := sh), DoPublish);
      case Published(ins) => Steps(s, t, Goto(s, t, Raising(ins, s.sh.top)), DoLoadTop);
      case Descend(job) => Steps(s, t, Goto(s, t, Walk(job, s.sh.top - 1, HEAD, Filled(HEAD), Filled(NIL))),
                                 DoStartWalk);
      case Inserted(ins) => Steps(s, t, Goto(s, t, Idle), DoReturn);
      case Answered(answer) => Steps(s, t, Goto(s, t, Idle), DoReturn);
      case _ =>
    }
  }

  lemma SwapsCanStep(s: State, t: nat)
    requires t in s.threads && (s.threads[t].Raising? || s.threads[t].Sizing?)
    requires s.threads[t].Sizing? ==> s.threads[t].start < |s.sh.links| && s.threads[t].want > 0
    ensures CanStep(s, t)
  {
    hide CanStep;
    var pc := s.threads[t];
    if pc.Raising? {
      var s' := if pc.ins.height <= pc.seen then Goto(s, t, Descend(Link(pc.ins, 0)))
                else if s.sh.top == pc.seen then
                  Goto(s, t, Descend(Link(pc.ins, 0))).(sh := s.sh.(top := pc.ins.height))
                else Goto(s, t, pc.(seen := s.sh.top));
      Steps(s, t, s', DoRaiseTop);
    } else {
      var height := if pc.want <= |s.sh.links| - pc.start then pc.want else |s.sh.links| - pc.start;
      var s' := if s.sh.nextLink == pc.start then
                  Goto(s, t, Placed(Ins(pc.v, pc.index, pc.start, height))).(
                    sh := s.sh.(nextLink := pc.start + height), owner := s.owner + seq(height, _ => pc.index))
                else Goto(s, t, pc.(start := s.sh.nextLink));
      Steps(s, t, s', DoReserveTower);
    }
  }

  /** Any call under way can take its next step, whatever the others do, unless the link arena is used up. */
  lemma NobodyWaits(states: seq<State>, steps: seq<(nat, Step)>, i: nat, t: nat)
    requires Run(states, steps) && i < |states| && t in states[i].threads && !states[i].threads[t].Idle?
    requires states[i].threads[t].Sizing? ==> states[i].threads[t].start < |states[i].sh.links|
    ensures CanStep(states[i], t)
  {
    hide Takes, Initial, CanStep, ReadLink, StoreLink, SwapLink, Inv, ThreadInv;
    var s := states[i];
    RunHolds(states, steps, i);
    ReadsStayInsideTowers(states, steps, i, t);
    OwnCanStep(s, t);
    if s.threads[t].Walk? {
      var s' :| ReadLink(s, t, s');
      ReadsStep(s, t, s');
    } else if s.threads[t].Store? {
      var s' :| StoreLink(s, t, s');
      StoresStep(s, t, s');
    } else if s.threads[t].Swap? {
      var s' :| SwapLink(s, t, s');
      SwapsStep(s, t, s');
    } else if s.threads[t].Raising? || s.threads[t].Sizing? {
      SizingWants(s, t);
      SwapsCanStep(s, t);
    }
  }

  lemma SizingWants(s: State, t: nat)
    requires Inv(s) && t in s.threads
    ensures s.threads[t].Sizing? ==> s.threads[t].want > 0
  {
    hide NodesInv, ChainsInv, Apart;
    assert ThreadInv(s, t, s.threads[t]);
  }

  lemma ReadsStep(s: State, t: nat, s': State)
    requires ReadLink(s, t, s')
    ensures CanStep(s, t)
  {
    hide ReadLink;
    assert Takes(s, t, s', DoReadLink);
  }

  lemma StoresStep(s: State, t: nat, s': State)
    requires StoreLink(s, t, s')
    ensures CanStep(s, t)
  {
    hide StoreLink;
    assert Takes(s, t, s', DoStoreLink);
  }

  lemma SwapsStep(s: State, t: nat, s': State)
    requires SwapLink(s, t, s')
    ensures CanStep(s, t)
  {
    hide SwapLink;
    assert Takes(s, t, s', DoSwapLink);
  }

  // ---- Why a swap fails ----

  /** The thread goes by a pair it has recorded for a level: `pred` was followed by `succ` there. */
  ghost predicate GoesBy(pc: Pc, level: nat, pred: nat, succ: nat) {
    match pc
    case Walk(job, l, _, preds, succs) => l < level && Pair(level, preds, succs, pred, succ)
    case Store(_, l, preds, succs) => l <= level && Pair(level, preds, succs, pred, succ)
    case Swap(_, l, preds, succs) => l <= level && Pair(level, preds, succs, pred, succ)
    case _ => false
  }

  ghost predicate Pair(level: nat, preds: seq<nat>, succs: seq<nat>, pred: nat, succ: nat) {
    level < |preds| && level < |succs| && preds[level] == pred && succs[level] == succ
  }

  /** Step `j` is where thread `t` read the link of `pred` at `level` and found `succ`. */
  ghost predicate ReadsPair(s: State, step: (nat, Step), t: nat, level: nat, pred: nat, succ: nat) {
    && step.0 == t && step.1.DoReadLink? && t in s.threads && s.threads[t].Walk?
    && s.threads[t].level == level && s.threads[t].node == pred && Holds(s.sh, pred, level, succ)
  }

  /** Another thread's swap on the link of `pred` at `level` succeeds. */
  ghost predicate WinsLink(s: State, step: (nat, Step), t: nat, level: nat, pred: nat) {
    && step.0 != t && step.1.DoSwapLink? && step.0 in s.threads && s.threads[step.0].Swap?
    && var pc := s.threads[step.0];
    && pc.level == level && level < |pc.preds| && level < |pc.succs| && pc.preds[level] == pred
    && Holds(s.sh, pred, level, pc.succs[level])
  }

  /** The thread is linking a node whose tower reaches `level`. */
  ghost predicate Links(pc: Pc, level: nat) {
    match pc
    case Walk(job, _, _, _, _) => job.Link? && level < job.ins.height
    case Store(ins, _, _, _) => level < ins.height
    case Swap(ins, _, _, _) => level < ins.height
    case _ => false
  }

  lemma PairIsLinked(s: State, t: nat, level: nat, pred: nat, succ: nat)
    requires Inv(s) && t in s.threads && GoesBy(s.threads[t], level, pred, succ) && Links(s.threads[t], level)
    ensures |s.chains| == MAX_HEIGHT && level < MAX_HEIGHT && (pred == HEAD || pred in s.chains[level])
  {
    hide NodesInv, ChainsInv, Apart, InsInv;
    assert ThreadInv(s, t, s.threads[t]);
    TopBound(s);
  }

  /** A pair a thread goes by was there before the step, or the step read it. */
  lemma PairFrom(s: State, u: nat, s': State, step: Step, t: nat, level: nat, pred: nat, succ: nat)
    requires Inv(s) && Takes(s, u, s', step) && t in s'.threads
    requires GoesBy(s'.threads[t], level, pred, succ) && Links(s'.threads[t], level)
    ensures t in s.threads
    ensures (GoesBy(s.threads[t], level, pred, succ) && Links(s.threads[t], level))
            || ReadsPair(s, (u, step), t, level, pred, succ)
  {
    hide Inv, Takes, GoesBy, Links, ReadsPair;
    C.OwnStep(s, u, s', step);
    if u == t {
      if step.DoReadLink? {
        PairRead(s, t, s', level, pred, succ);
      } else if step.DoSwapLink? || step.DoStoreLink? {
        PairKept(s, t, s', step, level, pred, succ);
      } else {
        NoPair(s, t, s', step, level, pred, succ);
      }
    }
  }

  lemma PairRead(s: State, t: nat, s': State, level: nat, pred: nat, succ: nat)
    requires t in s.threads && t in s'.threads && Takes(s, t, s', DoReadLink)
    requires GoesBy(s'.threads[t], level, pred, succ) && Links(s'.threads[t], level)
    ensures (GoesBy(s.threads[t], level, pred, succ) && Links(s.threads[t], level))
            || ReadsPair(s, (t, DoReadLink), t, level, pred, succ)
  {
    hide Next, Readable, Precedes;
  }

  lemma PairKept(s: State, t: nat, s': State, step: Step, level: nat, pred: nat, succ: nat)
    requires t in s.threads && t in s'.threads && Takes(s, t, s', step) && (step.DoSwapLink? || step.DoStoreLink?)
    requires GoesBy(s'.threads[t], level, pred, succ) && Links(s'.threads[t], level)
    ensures GoesBy(s.threads[t], level, pred, succ) && Links(s.threads[t], level)
  {
    hide Next, Readable, Spliced, Slot;
  }

  /** No other step leaves its thread with a pair to go by. */
  lemma NoPair(s: State, t: nat, s': State, step: Step, level: nat, pred: nat, succ: nat)
    requires t in s'.threads && !step.DoReadLink? && !step.DoSwapLink? && !step.DoStoreLink?
    requires Inv(s) && Takes(s, t, s', step)
    ensures !(GoesBy(s'.threads[t], level, pred, succ) && Links(s'.threads[t], level))
  {
    hide Inv, Next, Readable;
    if step.DoStartWalk? {
      WalkStartsAbove(s, t);
    }
  }

  lemma WalkStartsAbove(s: State, t: nat)
    requires Inv(s) && t in s.threads && s.threads[t].Descend?
    ensures s.threads[t].job.Link? ==> s.threads[t].job.ins.height <= s.sh.top
  {
    hide NodesInv, ChainsInv, Apart, InsInv;
    assert ThreadInv(s, t, s.threads[t]);
  }

  /** A link of a linked node changes only by a successful swap on it. */
  lemma LinkChanges(s: State, u: nat, s': State, step: Step, level: nat, pred: nat, succ: nat)
    requires Inv(s) && Takes(s, u, s', step) && |s.chains| == MAX_HEIGHT && level < MAX_HEIGHT
    requires (pred == HEAD || pred in s.chains[level]) && Holds(s.sh, pred, level, succ)
    ensures Holds(s'.sh, pred, level, succ) || (step.DoSwapLink? && SwapsAt(s, u, s', level, pred))
  {
    hide Inv, SwapLink, StoreLink, Unseen, SwapsAt;
    match step {
      case DoStoreLink =>
        StoreUnseen(s, u, s');
        HeldUnseen(s, s', level, pred, succ);
      case DoSwapLink => SwapElsewhere(s, u, s', level, pred, succ);
      case DoPublish => PlacedNew(s, u);
      case _ =>
    }
  }

  lemma PlacedNew(s: State, t: nat)
    requires Inv(s) && t in s.threads && s.threads[t].Placed?
    ensures s.threads[t].ins.index !in s.sh.nodes
  {
    hide NodesInv, ChainsInv, Apart;
    PlacedIsNew(s, t);
  }

  lemma HeldUnseen(s: State, s': State, level: nat, pred: nat, succ: nat)
    requires Unseen(s, s') && level < MAX_HEIGHT && (pred == HEAD || pred in s.chains[level])
    requires Holds(s.sh, pred, level, succ)
    ensures Holds(s'.sh, pred, level, succ)
  {
  }

  /** A swap on the link of `pred` at `level` that succeeds. */
  ghost predicate SwapsAt(s: State, u: nat, s': State, level: nat, pred: nat) {
    && u in s.threads && s.threads[u].Swap? && u in s'.threads
    && var pc := s.threads[u];
    && pc.level == level && level < |pc.preds| && level < |pc.succs| && pc.preds[level] == pred
    && Holds(s.sh, pred, level, pc.succs[level])
    && s'.threads[u] == if level + 1 < pc.ins.height then Store(pc.ins, level + 1, pc.preds, pc.succs)
                        else Inserted(pc.ins)
  }

  lemma SwapElsewhere(s: State, u: nat, s': State, level: nat, pred: nat, succ: nat)
    requires Inv(s) && SwapLink(s, u, s') && Holds(s.sh, pred, level, succ)
    ensures Holds(s'.sh, pred, level, succ) || SwapsAt(s, u, s', level, pred)
  {
    hide ThreadInv, NodesInv, ChainsInv, Apart, Next, Readable, Spliced;
    var pc := s.threads[u];
    var at := pc.preds[pc.level];
    if Next(s.sh, at, pc.level) == pc.succs[pc.level] && (at != pred || pc.level != level) {
      WriteKeepsLink(s.sh, s.owner, s.used, pred, level, at, pc.level, pc.ins.index);
    }
  }

  lemma {:induction false} FindRead(states: seq<State>, steps: seq<(nat, Step)>, i: nat, t: nat, level: nat, pred: nat,
                                    succ: nat) returns (j: nat)
    requires Run(states, steps) && i < |states| && t in states[i].threads
    requires GoesBy(states[i].threads[t], level, pred, succ) && Links(states[i].threads[t], level)
    ensures j < i && ReadsPair(states[j], steps[j], t, level, pred, succ)
    decreases i
  {
    hide Inv, Takes, GoesBy, Links, ReadsPair, Initial;
    StartsIdle(states, steps, i, t, level, pred, succ);
    RunHolds(states, steps, i - 1);
    PairFrom(states[i - 1], steps[i - 1].0, states[i], steps[i - 1].1, t, level, pred, succ);
    if ReadsPair(states[i - 1], steps[i - 1], t, level, pred, succ) {
      j := i - 1;
    } else {
      j := FindRead(states, steps, i - 1, t, level, pred, succ);
    }
  }

  lemma StartsIdle(states: seq<State>, steps: seq<(nat, Step)>, i: nat, t: nat, level: nat, pred: nat, succ: nat)
    requires Run(states, steps) && i < |states| && t in states[i].threads
    requires GoesBy(states[i].threads[t], level, pred, succ)
    ensures i > 0
  {
    hide Takes;
  }

  lemma ReadKeeps(s: State, t: nat, s': State, step: Step, level: nat, pred: nat, succ: nat)
    requires Takes(s, t, s', step) && ReadsPair(s, (t, step), t, level, pred, succ)
    ensures Holds(s'.sh, pred, level, succ)
  {
    hide Precedes, Landed;
  }

  lemma MovedOn(s: State, t: nat, s': State, level: nat, pred: nat, succ: nat)
    requires SwapsAt(s, t, s', level, pred)
    ensures !GoesBy(s'.threads[t], level, pred, succ)
  {
  }

  lemma {:induction false} FindWinner(states: seq<State>, steps: seq<(nat, Step)>, i: nat, t: nat, level: nat,
                                      pred: nat, succ: nat) returns (j: nat, k: nat)
    requires Run(states, steps) && i < |states| && t in states[i].threads && !Holds(states[i].sh, pred, level, succ)
    requires GoesBy(states[i].threads[t], level, pred, succ) && Links(states[i].threads[t], level)
    ensures j < k < i && ReadsPair(states[j], steps[j], t, level, pred, succ)
    ensures WinsLink(states[k], steps[k], t, level, pred)
    decreases i
  {
    hide Inv, Takes, GoesBy, Links, ReadsPair, Initial, Holds, SwapsAt;
    StartsIdle(states, steps, i, t, level, pred, succ);
    var s, u, s', step := states[i - 1], steps[i - 1].0, states[i], steps[i - 1].1;
    RunHolds(states, steps, i - 1);
    PairFrom(s, u, s', step, t, level, pred, succ);
    if ReadsPair(s, (u, step), t, level, pred, succ) {
      ReadsOwn(s, u, step, t, level, pred, succ);
      ReadKeeps(s, t, s', step, level, pred, succ);
    } else if Holds(s.sh, pred, level, succ) {
      PairIsLinked(s, t, level, pred, succ);
      LinkChanges(s, u, s', step, level, pred, succ);
      if u == t {
        MovedOn(s, t, s', level, pred, succ);
      }
      k := i - 1;
      IsWinner(s, u, s', step, t, level, pred);
      j := FindRead(states, steps, i - 1, t, level, pred, succ);
    } else {
      j, k := FindWinner(states, steps, i - 1, t, level, pred, succ);
    }
  }

  lemma ReadsOwn(s: State, u: nat, step: Step, t: nat, level: nat, pred: nat, succ: nat)
    requires ReadsPair(s, (u, step), t, level, pred, succ)
    ensures u == t
  {
  }

  lemma IsWinner(s: State, u: nat, s': State, step: Step, t: nat, level: nat, pred: nat)
    requires SwapsAt(s, u, s', level, pred) && step.DoSwapLink? && u != t
    ensures WinsLink(s, (u, step), t, level, pred)
  {
  }

  /** A swap fails only if, since its thread read the link, another thread's swap on that very link succeeded. */
  lemma FailedSwapHasAWinner(states: seq<State>, steps: seq<(nat, Step)>, i: nat) returns (j: nat, k: nat)
    requires Run(states, steps) && i < |steps| && steps[i].1.DoSwapLink?
    requires SwapLink(states[i], steps[i].0, states[i + 1])
    requires var pc := states[i].threads[steps[i].0];
             Next(states[i].sh, pc.preds[pc.level], pc.level) != pc.succs[pc.level]
    ensures var pc := states[i].threads[steps[i].0];
            && j < k < i && ReadsPair(states[j], steps[j], steps[i].0, pc.level, pc.preds[pc.level], pc.succs[pc.level])
            && WinsLink(states[k], steps[k], steps[i].0, pc.level, pc.preds[pc.level])
  {
    hide Takes, Initial, Inv, Spliced, ReadsPair, WinsLink;
    var t := steps[i].0;
    var pc := states[i].threads[t];
    RunHolds(states, steps, i);
    SwapReaches(states[i], t);
    j, k := FindWinner(states, steps, i, t, pc.level, pc.preds[pc.level], pc.succs[pc.level]);
  }

  lemma SwapReaches(s: State, t: nat)
    requires Inv(s) && t in s.threads && s.threads[t].Swap?
    ensures s.threads[t].level < s.threads[t].ins.height
  {
    hide NodesInv, ChainsInv, Apart, InsInv;
    assert ThreadInv(s, t, s.threads[t]);
  }
}
