/** What every interleaving of inserts and lookups keeps. */
module SkiplistInvariant {
  import opened Bounds
  import opened Versions
  import opened Skiplist

  // ---- Shared memory ----

  /** The slots of a tower are in bounds and reserved for its node. */
  ghost predicate Owns(owner: seq<nat>, index: nat, tower: nat, height: nat) {
    && 1 <= height <= MAX_HEIGHT && tower + height <= |owner|
    && forall k | tower <= k < tower + height :: owner[k] == index
  }

  ghost predicate NodesInv(sh: Shared, owner: seq<nat>, used: set<nat>) {
    && HEAD in sh.nodes && sh.nodes[HEAD].tower == 0 && sh.nodes[HEAD].height == MAX_HEIGHT
    && |owner| == sh.nextLink <= |sh.links| && 1 <= sh.nextNode && sh.nextNode <= NIL && sh.capacity <= NIL
    && 1 <= sh.top <= MAX_HEIGHT
    && (forall i | i in sh.nodes :: i < sh.nextNode && Owns(owner, i, sh.nodes[i].tower, sh.nodes[i].height))
    && (forall i | i in sh.nodes && i != HEAD :: sh.nodes[i].v.seqno <= U64_MAX && sh.nodes[i].v.seqno in used)
    && (forall i, j | i in sh.nodes && j in sh.nodes && i != HEAD && j != HEAD
        && sh.nodes[i].v.seqno == sh.nodes[j].v.seqno :: i == j)
  }

  ghost predicate Sorted(nodes: map<nat, Entry>, chain: seq<nat>) {
    && (forall i | 0 <= i < |chain| :: chain[i] in nodes && chain[i] != HEAD)
    && (forall i, j | 0 <= i < j < |chain| :: Before(nodes[chain[i]].v, nodes[chain[j]].v.key, nodes[chain[j]].v.seqno))
  }

  ghost function After(chain: seq<nat>, at: nat): nat {
    if at < |chain| then chain[at] else NIL
  }

  ghost predicate Tall(nodes: map<nat, Entry>, chain: seq<nat>, level: nat) {
    forall i | 0 <= i < |chain| :: chain[i] in nodes && level < nodes[chain[i]].height
  }

  /** Following the links of a level from the head visits exactly the chain. */
  ghost predicate Threaded(sh: Shared, chain: seq<nat>, level: nat) {
    && Tall(sh.nodes, chain, level)
    && Readable(sh, HEAD, level) && Next(sh, HEAD, level) == After(chain, 0)
    && (forall i | 0 <= i < |chain| ::
          Readable(sh, chain[i], level) && Next(sh, chain[i], level) == After(chain, i + 1))
  }

  ghost predicate LevelInv(sh: Shared, chain: seq<nat>, level: nat) {
    Sorted(sh.nodes, chain) && Threaded(sh, chain, level)
  }

  ghost predicate ChainsInv(sh: Shared, chains: seq<seq<nat>>) {
    && |chains| == MAX_HEIGHT
    && (forall l | 0 <= l < MAX_HEIGHT :: LevelInv(sh, chains[l], l))
    && (forall l, m, x | 0 <= m < l < MAX_HEIGHT && x in chains[l] :: x in chains[m])
    && (forall l | sh.top <= l < MAX_HEIGHT :: chains[l] == [])
  }

  // ---- Threads ----

  /** A node whose index and tower belong to thread t, not yet reachable at `level` or above. */
  ghost predicate InsInv(s: State, t: nat, ins: Ins, level: nat) {
    && 0 < ins.index < s.sh.nextNode && ins.index in s.claim && s.claim[ins.index] == t
    && ins.index in s.sh.nodes && s.sh.nodes[ins.index] == Entry(ins.v, ins.tower, ins.height)
    && level <= ins.height
    && |s.chains| == MAX_HEIGHT
    && (forall l | level <= l < MAX_HEIGHT :: ins.index !in s.chains[l])
    && (forall l | 0 <= l < level && l < MAX_HEIGHT :: ins.index in s.chains[l])
  }

  ghost predicate JobInv(s: State, t: nat, job: Job) {
    job.Link? ==> InsInv(s, t, job.ins, job.level) && job.level < job.ins.height <= s.sh.top
  }

  /** A predecessor recorded for a level: the head, or a node linked there that sorts before the target. */
  ghost predicate PredOk(sh: Shared, chain: seq<nat>, job: Job, pred: nat) {
    pred == HEAD || (pred in chain && pred in sh.nodes && Precedes(sh, pred, job))
  }

  /** A successor recorded for a level: the end, or a node linked there that does not sort before the target. */
  ghost predicate SuccOk(sh: Shared, chain: seq<nat>, job: Job, succ: nat) {
    succ == NIL || (succ in chain && succ in sh.nodes && !Precedes(sh, succ, job))
  }

  ghost predicate PairsInv(s: State, job: Job, preds: seq<nat>, succs: seq<nat>, from: nat) {
    && |preds| == |succs| == MAX_HEIGHT && |s.chains| == MAX_HEIGHT
    && (forall l | from <= l < MAX_HEIGHT ::
          PredOk(s.sh, s.chains[l], job, preds[l]) && SuccOk(s.sh, s.chains[l], job, succs[l]))
  }

  ghost predicate ThreadInv(s: State, t: nat, pc: Pc) {
    match pc
    case Idle => true
    case Numbered(v, i) => Claimed(s, t, v, i)
    case Sizing(v, i, want, start) => Claimed(s, t, v, i) && 1 <= want <= MAX_HEIGHT && start <= s.sh.nextLink
    case Placed(ins) => Claimed(s, t, ins.v, ins.index) && Owns(s.owner, ins.index, ins.tower, ins.height)
    case Published(ins) => InsInv(s, t, ins, 0)
    case Raising(ins, seen) => InsInv(s, t, ins, 0) && seen <= s.sh.top
    case Descend(job) => JobInv(s, t, job)
    case Walk(job, level, node, preds, succs) =>
      && JobInv(s, t, job) && level < s.sh.top && |s.chains| == MAX_HEIGHT && level < MAX_HEIGHT
      && PredOk(s.sh, s.chains[level], job, node) && PairsInv(s, job, preds, succs, level + 1)
    case Store(ins, level, preds, succs) =>
      && JobInv(s, t, Link(ins, level)) && PairsInv(s, Link(ins, level), preds, succs, level)
    case Swap(ins, level, preds, succs) =>
      && JobInv(s, t, Link(ins, level)) && PairsInv(s, Link(ins, level), preds, succs, level)
      && level < MAX_HEIGHT && Readable(s.sh, ins.index, level) && Next(s.sh, ins.index, level) == succs[level]
    case Inserted(ins) => InsInv(s, t, ins, ins.height)
    case Answered(answer) => true
  }

  /** A node index handed to thread t whose node is not published yet. */
  ghost predicate Claimed(s: State, t: nat, v: Version, i: nat) {
    && 0 < i < s.sh.nextNode && i in s.claim && s.claim[i] == t && i !in s.sh.nodes
    && v.seqno <= U64_MAX && v.seqno in s.used
    && (forall j | j in s.sh.nodes && j != HEAD :: s.sh.nodes[j].v.seqno != v.seqno)
  }

  ghost predicate VersionOf(pc: Pc, v: Version) {
    || (pc.Numbered? && pc.v == v)
    || (pc.Sizing? && pc.v == v)
    || (pc.Placed? && pc.ins.v == v)
  }

  /** Versions on their way into the table have sequence numbers of their own. */
  ghost predicate Apart(s: State) {
    && (forall t, u, v, w | t in s.threads && u in s.threads && t != u ::
          VersionOf(s.threads[t], v) && VersionOf(s.threads[u], w) ==> v.seqno != w.seqno)
    && (forall i | i in s.claim :: i < s.sh.nextNode)
  }

  ghost predicate Inv(s: State) {
    && NodesInv(s.sh, s.owner, s.used)
    && ChainsInv(s.sh, s.chains)
    && Apart(s)
    && (forall t | t in s.threads :: ThreadInv(s, t, s.threads[t]))
  }

  // ---- What one thread's step leaves alone for the others ----

  ghost predicate SharedGrows(s: State, s': State) {
    && s'.sh.nextNode >= s.sh.nextNode && s'.sh.nextLink >= s.sh.nextLink && s'.sh.top >= s.sh.top
    && |s'.sh.links| == |s.sh.links| && s.owner <= s'.owner && s.used <= s'.used
    && (forall i | i in s.sh.nodes :: i in s'.sh.nodes && s'.sh.nodes[i] == s.sh.nodes[i])
    && (forall i | i in s.claim :: i in s'.claim && s'.claim[i] == s.claim[i])
  }

  /** New nodes and newly linked nodes are thread t's own. */
  ghost predicate OnlyOwnNodes(s: State, t: nat, s': State) {
    && (forall i | i in s'.sh.nodes && i !in s.sh.nodes :: i in s.claim && s.claim[i] == t)
    && |s.chains| == |s'.chains| == MAX_HEIGHT
    && (forall l, x | 0 <= l < MAX_HEIGHT && x in s.chains[l] :: x in s'.chains[l])
    && (forall l, x | 0 <= l < MAX_HEIGHT && x in s'.chains[l] && x !in s.chains[l] :: x in s.claim && s.claim[x] == t)
  }

  /** A link changes only in thread t's own tower or where its node is already linked. */
  ghost predicate OnlyOwnLinks(s: State, t: nat, s': State) {
    && |s.chains| == MAX_HEIGHT
    && forall i: nat, l: nat | i != HEAD && l < MAX_HEIGHT && Readable(s.sh, i, l) && i !in s.chains[l]
       && (i in s.claim ==> s.claim[i] != t) ::
         Readable(s'.sh, i, l) && Next(s'.sh, i, l) == Next(s.sh, i, l)
  }

  /** The new node, if there is one, carries none of the sequence numbers still on their way. */
  ghost predicate NoClash(s: State, t: nat, s': State) {
    forall u, v, i | u in s.threads && u != t && VersionOf(s.threads[u], v) && i in s'.sh.nodes && i !in s.sh.nodes ::
      s'.sh.nodes[i].v.seqno != v.seqno
  }

  lemma JobFrame(s: State, t: nat, s': State, u: nat, job: Job)
    requires SharedGrows(s, s') && OnlyOwnNodes(s, t, s') && u != t && JobInv(s, u, job)
    ensures JobInv(s', u, job)
  {
    if job.Link? {
      InsFrame(s, t, s', u, job.ins, job.level);
    }
  }

  lemma InsFrame(s: State, t: nat, s': State, u: nat, ins: Ins, level: nat)
    requires SharedGrows(s, s') && OnlyOwnNodes(s, t, s') && u != t && InsInv(s, u, ins, level)
    ensures InsInv(s', u, ins, level)
  {
  }

  lemma PairsFrame(s: State, t: nat, s': State, job: Job, preds: seq<nat>, succs: seq<nat>, from: nat)
    requires SharedGrows(s, s') && OnlyOwnNodes(s, t, s') && PairsInv(s, job, preds, succs, from)
    ensures PairsInv(s', job, preds, succs, from)
  {
  }

  lemma ThreadFrame(s: State, t: nat, s': State, u: nat)
    requires SharedGrows(s, s') && OnlyOwnNodes(s, t, s') && OnlyOwnLinks(s, t, s') && NoClash(s, t, s')
    requires u in s.threads && u != t && ThreadInv(s, u, s.threads[u])
    ensures ThreadInv(s', u, s.threads[u])
  {
    hide JobInv, InsInv, PairsInv;
    var pc := s.threads[u];
    match pc {
      case Idle =>
      case Numbered(v, i) => assert VersionOf(pc, v);
      case Sizing(v, i, want, start) => assert VersionOf(pc, v);
      case Placed(ins) => assert VersionOf(pc, ins.v);
      case Published(ins) => InsFrame(s, t, s', u, ins, 0);
      case Raising(ins, seen) => InsFrame(s, t, s', u, ins, 0);
      case Descend(job) => JobFrame(s, t, s', u, job);
      case Walk(job, level, node, preds, succs) =>
        JobFrame(s, t, s', u, job);
        PairsFrame(s, t, s', job, preds, succs, level + 1);
      case Store(ins, level, preds, succs) =>
        JobFrame(s, t, s', u, Link(ins, level));
        PairsFrame(s, t, s', Link(ins, level), preds, succs, level);
      case Swap(ins, level, preds, succs) =>
        JobFrame(s, t, s', u, Link(ins, level));
        PairsFrame(s, t, s', Link(ins, level), preds, succs, level);
        NotLinkedYet(s, u, ins, level);
      case Inserted(ins) => InsFrame(s, t, s', u, ins, ins.height);
      case Answered(answer) =>
    }
  }

  lemma NotLinkedYet(s: State, u: nat, ins: Ins, level: nat)
    requires JobInv(s, u, Link(ins, level)) && level < MAX_HEIGHT
    ensures ins.index in s.claim && s.claim[ins.index] == u && ins.index != HEAD
    ensures |s.chains| == MAX_HEIGHT && ins.index !in s.chains[level]
  {
  }

  /** Steps that only read: nothing shared moves. */
  lemma ReadOnlyFrame(s: State, t: nat, s': State)
    requires Inv(s) && s' == s.(threads := s'.threads)
    requires t in s.threads && t in s'.threads && s'.threads == s.threads[t := s'.threads[t]]
    requires ThreadInv(s', t, s'.threads[t])
    requires forall v | VersionOf(s'.threads[t], v) :: VersionOf(s.threads[t], v)
    ensures Inv(s')
  {
    hide NodesInv, ChainsInv, Apart, ThreadInv, VersionOf, SharedGrows, OnlyOwnNodes, OnlyOwnLinks, NoClash;
    TwelveLevels(s);
    ReadOnlyGrows(s, t, s');
    StillApart(s, t, s');
    forall u | u in s'.threads
      ensures ThreadInv(s', u, s'.threads[u])
    {
      if u != t {
        ThreadFrame(s, t, s', u);
      }
    }
  }

  lemma TwelveLevels(s: State)
    requires ChainsInv(s.sh, s.chains)
    ensures |s.chains| == MAX_HEIGHT
  {
    hide LevelInv;
  }

  lemma ReadOnlyGrows(s: State, t: nat, s': State)
    requires s' == s.(threads := s'.threads) && |s.chains| == MAX_HEIGHT
    ensures SharedGrows(s, s') && OnlyOwnNodes(s, t, s') && OnlyOwnLinks(s, t, s') && NoClash(s, t, s')
  {
  }

  ghost predicate Frame(s: State, t: nat, s': State) {
    && SharedGrows(s, s') && OnlyOwnNodes(s, t, s') && OnlyOwnLinks(s, t, s') && NoClash(s, t, s')
    && t in s.threads && t in s'.threads && s'.threads == s.threads[t := s'.threads[t]]
  }

  /** A step that keeps the shared part, its own thread and the frame keeps the invariant. */
  lemma Compose(s: State, t: nat, s': State)
    requires Inv(s) && Frame(s, t, s')
    requires NodesInv(s'.sh, s'.owner, s'.used) && ChainsInv(s'.sh, s'.chains) && Apart(s')
    requires ThreadInv(s', t, s'.threads[t])
    ensures Inv(s')
  {
    hide NodesInv, ChainsInv, ThreadInv, Apart, SharedGrows, OnlyOwnNodes, OnlyOwnLinks, NoClash;
    forall u | u in s'.threads
      ensures ThreadInv(s', u, s'.threads[u])
    {
      if u != t {
        ThreadFrame(s, t, s', u);
      }
    }
  }

  /** A thread that leaves the versions on their way as they were. */
  lemma StillApart(s: State, t: nat, s': State)
    requires Apart(s) && t in s.threads && t in s'.threads && s'.threads == s.threads[t := s'.threads[t]]
    requires forall v | VersionOf(s'.threads[t], v) :: VersionOf(s.threads[t], v)
    requires s'.claim == s.claim && s'.sh.nextNode == s.sh.nextNode
    ensures Apart(s')
  {
    hide VersionOf;
    forall a, b, v, w | a in s'.threads && b in s'.threads && a != b && VersionOf(s'.threads[a], v)
        && VersionOf(s'.threads[b], w)
      ensures v.seqno != w.seqno
    {
      assert VersionOf(s.threads[a], v) && VersionOf(s.threads[b], w);
    }
  }
}
