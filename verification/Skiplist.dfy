/**
 * The lock-free skiplist as a state machine: every load, store and compare-and-swap of a shared atomic is one step,
 * and any number of inserts and lookups interleave them arbitrarily.
 */
module Skiplist {
  import opened Bounds
  import opened Keys
  import opened Versions

  const MAX_HEIGHT: nat := 12
  const HEAD: nat := 0
  const NIL: nat := 0xFFFF_FFFF

  /** A published node: written once, never changed. Its tower is `height` slots of the link arena. */
  datatype Entry = Entry(v: Version, tower: nat, height: nat)

  /** The arena and its counters. Link slots hold node indices. */
  datatype Shared = Shared(nodes: map<nat, Entry>, links: seq<nat>, nextNode: nat, nextLink: nat, top: nat,
                           capacity: nat)

  /** A node being inserted. */
  datatype Ins = Ins(v: Version, index: nat, tower: nat, height: nat)

  /** What a walk is for: linking a node at one level, or looking a key up. */
  datatype Job = Link(ins: Ins, level: nat) | Find(key: Bytes)

  /** Where a thread stands between two accesses to shared memory. */
  datatype Pc =
    | Idle
    | Numbered(v: Version, index: nat)
    | Sizing(v: Version, index: nat, want: nat, start: nat)
    | Placed(ins: Ins)
    | Published(ins: Ins)
    | Raising(ins: Ins, seen: nat)
    | Descend(job: Job)
    | Walk(job: Job, level: nat, node: nat, preds: seq<nat>, succs: seq<nat>)
    | Store(ins: Ins, level: nat, preds: seq<nat>, succs: seq<nat>)
    | Swap(ins: Ins, level: nat, preds: seq<nat>, succs: seq<nat>)
    | Inserted(ins: Ins)
    | Answered(answer: Lookup)

  /**
   * Shared memory and threads, with what has happened: the nodes linked at each level in order, the node each
   * link slot was reserved for, the thread each node index was handed to, the sequence numbers taken, and what
   * each insert reported.
   */
  datatype State = State(
    sh: Shared,
    threads: map<nat, Pc>,
    chains: seq<seq<nat>>,
    owner: seq<nat>,
    claim: map<nat, nat>,
    used: set<nat>,
    newest: map<nat, bool>)

  /** Key ascending, then sequence number descending. */
  predicate Before(a: Version, key: Bytes, seqno: nat) {
    Less(a.key, key) || (a.key == key && seqno < a.seqno)
  }

  function TargetKey(job: Job): Bytes {
    if job.Link? then job.ins.v.key else job.key
  }

  /** A lookup aims ahead of every version of its key. */
  function TargetSeq(job: Job): nat {
    if job.Link? then job.ins.v.seqno else U64_MAX
  }

  predicate Precedes(sh: Shared, node: nat, job: Job)
    requires node in sh.nodes
  {
    Before(sh.nodes[node].v, TargetKey(job), TargetSeq(job))
  }

  /** A link read: in bounds of the arena, and inside the node's own tower. */
  predicate Readable(sh: Shared, node: nat, level: nat) {
    node in sh.nodes && level < sh.nodes[node].height && sh.nodes[node].tower + level < |sh.links|
  }

  function Slot(sh: Shared, node: nat, level: nat): nat
    requires node in sh.nodes
  {
    sh.nodes[node].tower + level
  }

  function Next(sh: Shared, node: nat, level: nat): nat
    requires Readable(sh, node, level)
  {
    sh.links[Slot(sh, node, level)]
  }

  ghost function IndexOf(chain: seq<nat>, x: nat): (i: nat)
    requires x in chain
    ensures i < |chain| && chain[i] == x
  {
    var i :| 0 <= i < |chain| && chain[i] == x;
    i
  }

  /** The chain with `x` right after `pred`, the head coming before every node. */
  ghost function Spliced(chain: seq<nat>, pred: nat, x: nat): seq<nat>
    requires pred == HEAD || pred in chain
  {
    var at := if pred == HEAD then 0 else IndexOf(chain, pred) + 1;
    chain[..at] + [x] + chain[at..]
  }

  function Filled(x: nat): seq<nat> {
    seq(MAX_HEIGHT, _ => x)
  }

  // ---- Steps ----

  ghost predicate At(s: State, t: nat, pc: Pc) {
    t in s.threads && s.threads[t] == pc
  }

  ghost function Goto(s: State, t: nat, pc: Pc): State {
    s.(threads := s.threads[t := pc])
  }

  /** A writer takes a node index; the log gave it a sequence number nobody else has. */
  ghost predicate TakeNode(s: State, t: nat, s': State, v: Version) {
    && At(s, t, Idle) && v.seqno <= U64_MAX && v.seqno !in s.used && s.sh.nextNode < s.sh.capacity
    && var i := s.sh.nextNode;
    && s' == Goto(s, t, Numbered(v, i)).(sh := s.sh.(nextNode := i + 1), claim := s.claim[i := t],
                                         used := s.used + {v.seqno})
  }

  /** The wanted height is derived from the index; any height in range is possible here. */
  ghost predicate LoadNextLink(s: State, t: nat, s': State, want: nat) {
    && t in s.threads && s.threads[t].Numbered? && 1 <= want <= MAX_HEIGHT
    && s' == Goto(s, t, Sizing(s.threads[t].v, s.threads[t].index, want, s.sh.nextLink))
  }

  /** The tower is shortened to what the arena has left, and reserved if nobody else reserved in between. */
  ghost predicate ReserveTower(s: State, t: nat, s': State) {
    && t in s.threads && s.threads[t].Sizing? && s.threads[t].start <= |s.sh.links|
    && var pc := s.threads[t];
    && var height := if pc.want <= |s.sh.links| - pc.start then pc.want else |s.sh.links| - pc.start;
    && height > 0
    && if s.sh.nextLink == pc.start then
         s' == Goto(s, t, Placed(Ins(pc.v, pc.index, pc.start, height))).(
                 sh := s.sh.(nextLink := pc.start + height),
                 owner := s.owner + seq(height, _ => pc.index))
       else
         s' == Goto(s, t, pc.(start := s.sh.nextLink))
  }

  ghost predicate Publish(s: State, t: nat, s': State) {
    && t in s.threads && s.threads[t].Placed?
    && var ins := s.threads[t].ins;
    && s' == Goto(s, t, Published(ins)).(
               sh := s.sh.(nodes := s.sh.nodes[ins.index := Entry(ins.v, ins.tower, ins.height)]))
  }

  ghost predicate LoadTop(s: State, t: nat, s': State) {
    && t in s.threads && s.threads[t].Published?
    && s' == Goto(s, t, Raising(s.threads[t].ins, s.sh.top))
  }

  ghost predicate RaiseTop(s: State, t: nat, s': State) {
    && t in s.threads && s.threads[t].Raising?
    && var pc := s.threads[t];
    && if pc.ins.height <= pc.seen then
         s' == Goto(s, t, Descend(Link(pc.ins, 0)))
       else if s.sh.top == pc.seen then
         s' == Goto(s, t, Descend(Link(pc.ins, 0))).(sh := s.sh.(top := pc.ins.height))
       else
         s' == Goto(s, t, pc.(seen := s.sh.top))
  }

  ghost predicate StartFind(s: State, t: nat, s': State, key: Bytes) {
    && At(s, t, Idle)
    && s' == Goto(s, t, Descend(Find(key)))
  }

  /** A walk starts at the head on the highest level in use; levels above it are known to be empty. */
  ghost predicate StartWalk(s: State, t: nat, s': State) {
    && t in s.threads && s.threads[t].Descend? && 0 < s.sh.top
    && s' == Goto(s, t, Walk(s.threads[t].job, s.sh.top - 1, HEAD, Filled(HEAD), Filled(NIL)))
  }

  /** What a thread does once it has the last node before its target and the first node not before it. */
  function Landed(sh: Shared, job: Job, preds: seq<nat>, succs: seq<nat>): Pc
    requires |succs| == MAX_HEIGHT && (job.Find? && succs[0] != NIL ==> succs[0] in sh.nodes)
  {
    match job
    case Link(ins, level) => Store(ins, level, preds, succs)
    case Find(key) => Answered(if succs[0] == NIL || sh.nodes[succs[0]].v.key != key then Missing
                            else Shown(Some(sh.nodes[succs[0]].v)))
  }

  /** One link read: step forward on the level, or record the level and drop to the one below. */
  ghost predicate ReadLink(s: State, t: nat, s': State) {
    && t in s.threads && s.threads[t].Walk?
    && var pc := s.threads[t];
    && Readable(s.sh, pc.node, pc.level) && |pc.preds| == |pc.succs| == MAX_HEIGHT && pc.level < MAX_HEIGHT
    && var next := Next(s.sh, pc.node, pc.level);
    && (next == NIL || next in s.sh.nodes)
    && if next != NIL && Precedes(s.sh, next, pc.job) then
         s' == Goto(s, t, pc.(node := next))
       else
         var preds, succs := pc.preds[pc.level := pc.node], pc.succs[pc.level := next];
         if pc.level > 0 then
           s' == Goto(s, t, Walk(pc.job, pc.level - 1, pc.node, preds, succs))
         else
           s' == Goto(s, t, Landed(s.sh, pc.job, preds, succs))
  }

  /** The node's own link is set before the node is reachable at that level. */
  ghost predicate StoreLink(s: State, t: nat, s': State) {
    && t in s.threads && s.threads[t].Store?
    && var pc := s.threads[t];
    && pc.level < |pc.succs| && pc.ins.tower + pc.level < |s.sh.links|
    && s' == Goto(s, t, Swap(pc.ins, pc.level, pc.preds, pc.succs)).(
               sh := s.sh.(links := s.sh.links[pc.ins.tower + pc.level := pc.succs[pc.level]]))
  }

  /** The compare-and-swap on the predecessor's link; a failure walks again. */
  ghost predicate SwapLink(s: State, t: nat, s': State) {
    && t in s.threads && s.threads[t].Swap?
    && var pc := s.threads[t];
    && pc.level < |pc.preds| && pc.level < |pc.succs| && pc.level < |s.chains|
    && var pred := pc.preds[pc.level];
    && Readable(s.sh, pred, pc.level) && (pred == HEAD || pred in s.chains[pc.level])
    && if Next(s.sh, pred, pc.level) == pc.succs[pc.level] then
         s' == Goto(s, t, if pc.level + 1 < pc.ins.height then Store(pc.ins, pc.level + 1, pc.preds, pc.succs)
                          else Inserted(pc.ins)).(
                 sh := s.sh.(links := s.sh.links[Slot(s.sh, pred, pc.level) := pc.ins.index]),
                 chains := s.chains[pc.level := Spliced(s.chains[pc.level], pred, pc.ins.index)],
                 newest := if pc.level > 0 then s.newest
                           else s.newest[pc.ins.index := pred == HEAD || s.sh.nodes[pred].v.key != pc.ins.v.key])
       else
         s' == Goto(s, t, Descend(Link(pc.ins, pc.level)))
  }

  /** The thread is free for its next call. */
  ghost predicate Return(s: State, t: nat, s': State) {
    && t in s.threads && (s.threads[t].Inserted? || s.threads[t].Answered?)
    && s' == Goto(s, t, Idle)
  }

  datatype Step =
    | DoTakeNode(v: Version) | DoLoadNextLink(want: nat) | DoReserveTower | DoPublish | DoLoadTop | DoRaiseTop
    | DoStartFind(key: Bytes) | DoStartWalk | DoReadLink | DoStoreLink | DoSwapLink | DoReturn

  ghost predicate Takes(s: State, t: nat, s': State, step: Step) {
    match step
    case DoTakeNode(v) => TakeNode(s, t, s', v)
    case DoLoadNextLink(want) => LoadNextLink(s, t, s', want)
    case DoReserveTower => ReserveTower(s, t, s')
    case DoPublish => Publish(s, t, s')
    case DoLoadTop => LoadTop(s, t, s')
    case DoRaiseTop => RaiseTop(s, t, s')
    case DoStartFind(key) => StartFind(s, t, s', key)
    case DoStartWalk => StartWalk(s, t, s')
    case DoReadLink => ReadLink(s, t, s')
    case DoStoreLink => StoreLink(s, t, s')
    case DoSwapLink => SwapLink(s, t, s')
    case DoReturn => Return(s, t, s')
  }

  /** An empty table: the head owns the first tower, every link ends its level. */
  ghost predicate Initial(s: State) {
    && (forall t | t in s.threads :: s.threads[t] == Idle)
    && s.sh.nodes == map[HEAD := Entry(Version([], 0, None), 0, MAX_HEIGHT)]
    && |s.sh.links| >= MAX_HEIGHT && (forall i | 0 <= i < |s.sh.links| :: s.sh.links[i] == NIL)
    && s.sh.nextNode == 1 && s.sh.nextLink == MAX_HEIGHT && s.sh.top == 1 && s.sh.capacity <= NIL
    && s.chains == seq(MAX_HEIGHT, _ => []) && s.owner == seq(MAX_HEIGHT, _ => HEAD)
    && s.claim == map[] && s.used == {} && s.newest == map[]
  }

  ghost predicate Run(states: seq<State>, steps: seq<(nat, Step)>) {
    && |states| == |steps| + 1 && Initial(states[0])
    && forall i | 0 <= i < |steps| :: Takes(states[i], steps[i].0, states[i + 1], steps[i].1)
  }
}
