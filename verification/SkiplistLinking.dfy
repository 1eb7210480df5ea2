/** Storing a node's own link and swapping it into a level keep the skiplist's invariant. */
module SkiplistLinking {
  import opened Keys
  import opened Versions
  import opened Skiplist
  import opened SkiplistInvariant
  import opened SkiplistSteps

  /** Towers never share a link slot. */
  lemma SlotsDiffer(sh: Shared, owner: seq<nat>, used: set<nat>, i: nat, l: nat, j: nat, m: nat)
    requires NodesInv(sh, owner, used) && Readable(sh, i, l) && Readable(sh, j, m) && (i != j || l != m)
    ensures Slot(sh, i, l) != Slot(sh, j, m)
  {
    assert Owns(owner, i, sh.nodes[i].tower, sh.nodes[i].height);
    assert Owns(owner, j, sh.nodes[j].tower, sh.nodes[j].height);
    assert i != j ==> owner[Slot(sh, i, l)] != owner[Slot(sh, j, m)];
  }

  /** A write to the slot of a node not linked at that level changes no level. */
  lemma UnlinkedWrite(sh: Shared, owner: seq<nat>, used: set<nat>, chains: seq<seq<nat>>, x: nat, level: nat, to: nat)
    requires NodesInv(sh, owner, used) && ChainsInv(sh, chains)
    requires x != HEAD && level < MAX_HEIGHT && Readable(sh, x, level) && x !in chains[level]
    ensures ChainsInv(sh.(links := sh.links[Slot(sh, x, level) := to]), chains)
  {
    hide LevelInv, NodesInv;
    var sh' := sh.(links := sh.links[Slot(sh, x, level) := to]);
    forall l | 0 <= l < MAX_HEIGHT
      ensures LevelInv(sh', chains[l], l)
    {
      WriteElsewhere(sh, owner, used, chains[l], l, x, level, to);
    }
  }

  /** A write to one slot leaves every other link as it was. */
  lemma WriteKeepsLink(sh: Shared, owner: seq<nat>, used: set<nat>, node: nat, l: nat, x: nat, level: nat, to: nat)
    requires NodesInv(sh, owner, used) && Readable(sh, node, l) && Readable(sh, x, level) && (node != x || l != level)
    ensures var sh' := sh.(links := sh.links[Slot(sh, x, level) := to]);
            Readable(sh', node, l) && Next(sh', node, l) == Next(sh, node, l)
  {
    SlotsDiffer(sh, owner, used, node, l, x, level);
  }

  lemma WriteElsewhere(sh: Shared, owner: seq<nat>, used: set<nat>, chain: seq<nat>, l: nat, x: nat, level: nat,
                       to: nat)
    requires NodesInv(sh, owner, used) && LevelInv(sh, chain, l) && Readable(sh, x, level)
    requires l != level || (x != HEAD && x !in chain)
    ensures LevelInv(sh.(links := sh.links[Slot(sh, x, level) := to]), chain, l)
  {
    hide NodesInv, Sorted, Next, After;
    var sh' := sh.(links := sh.links[Slot(sh, x, level) := to]);
    WriteKeepsLink(sh, owner, used, HEAD, l, x, level, to);
    forall i | 0 <= i < |chain|
      ensures Readable(sh', chain[i], l) && Next(sh', chain[i], l) == After(chain, i + 1)
    {
      assert chain[i] in chain;
      WriteKeepsLink(sh, owner, used, chain[i], l, x, level, to);
    }
  }

  /** A published node's tower is readable at each of its levels. */
  lemma OwnTower(s: State, t: nat, ins: Ins, at: nat, level: nat)
    requires NodesInv(s.sh, s.owner, s.used) && InsInv(s, t, ins, at) && level < ins.height
    ensures Readable(s.sh, ins.index, level) && Slot(s.sh, ins.index, level) == ins.tower + level
    ensures level < MAX_HEIGHT
  {
    assert Owns(s.owner, ins.index, ins.tower, ins.height);
  }

  lemma StoreLinkKeeps(s: State, t: nat, s': State)
    requires Inv(s) && StoreLink(s, t, s')
    ensures Inv(s')
  {
    hide NodesInv, ChainsInv, Apart, Frame, InsInv, PairsInv, ThreadInv;
    var pc := s.threads[t];
    StoreFacts(s, t);
    UnlinkedWrite(s.sh, s.owner, s.used, s.chains, pc.ins.index, pc.level, pc.succs[pc.level]);
    StoredHolds(s, t, s');
    StoredFrame(s, t, s');
    StoredNodes(s, s');
    StillApart(s, t, s');
    Compose(s, t, s');
  }

  lemma StoreFacts(s: State, t: nat)
    requires NodesInv(s.sh, s.owner, s.used) && t in s.threads && s.threads[t].Store? && ThreadInv(s, t, s.threads[t])
    ensures var pc := s.threads[t];
            && pc.ins.index != HEAD && pc.level < MAX_HEIGHT && Readable(s.sh, pc.ins.index, pc.level)
            && Slot(s.sh, pc.ins.index, pc.level) == pc.ins.tower + pc.level
            && |s.chains| == MAX_HEIGHT && pc.ins.index !in s.chains[pc.level] && pc.level < |pc.succs|
  {
    hide NodesInv;
    OwnTower(s, t, s.threads[t].ins, s.threads[t].level, s.threads[t].level);
  }

  lemma StoredNodes(s: State, s': State)
    requires NodesInv(s.sh, s.owner, s.used) && s'.sh == s.sh.(links := s'.sh.links) && |s'.sh.links| == |s.sh.links|
    requires s'.owner == s.owner && s'.used == s.used
    ensures NodesInv(s'.sh, s'.owner, s'.used)
  {
  }

  lemma StoredHolds(s: State, t: nat, s': State)
    requires NodesInv(s.sh, s.owner, s.used) && StoreLink(s, t, s') && ThreadInv(s, t, s.threads[t])
    ensures ThreadInv(s', t, s'.threads[t])
  {
    hide NodesInv;
    StoreFacts(s, t);
  }

  lemma StoredFrame(s: State, t: nat, s': State)
    requires NodesInv(s.sh, s.owner, s.used) && StoreLink(s, t, s') && ThreadInv(s, t, s.threads[t])
    ensures Frame(s, t, s')
  {
    hide NodesInv, PairsInv;
    StoreFacts(s, t);
    var ins, level := s.threads[t].ins, s.threads[t].level;
    assert ins.index in s.claim && s.claim[ins.index] == t;
    forall i: nat, l: nat | i != ins.index && Readable(s.sh, i, l)
      ensures Next(s'.sh, i, l) == Next(s.sh, i, l)
    {
      SlotsDiffer(s.sh, s.owner, s.used, i, l, ins.index, level);
    }
  }

  // ---- The order ----

  lemma BeforeTrans(a: Version, b: Version, c: Version)
    requires Before(a, b.key, b.seqno) && Before(b, c.key, c.seqno)
    ensures Before(a, c.key, c.seqno)
  {
    KeyOrder();
  }

  lemma BeforeTotal(a: Version, b: Version)
    requires !Before(a, b.key, b.seqno) && a.seqno != b.seqno
    ensures Before(b, a.key, a.seqno)
  {
    KeyOrder();
  }

  ghost function PlaceAfter(chain: seq<nat>, pred: nat): (at: nat)
    requires pred == HEAD || pred in chain
    ensures at <= |chain| && (pred == HEAD ==> at == 0) && (pred != HEAD ==> at > 0 && chain[at - 1] == pred)
  {
    if pred == HEAD then 0 else IndexOf(chain, pred) + 1
  }

  lemma SplicedSorted(nodes: map<nat, Entry>, chain: seq<nat>, at: nat, x: nat)
    requires Sorted(nodes, chain) && at <= |chain| && x in nodes && x != HEAD
    requires at > 0 ==> Before(nodes[chain[at - 1]].v, nodes[x].v.key, nodes[x].v.seqno)
    requires at < |chain| ==> Before(nodes[x].v, nodes[chain[at]].v.key, nodes[chain[at]].v.seqno)
    ensures Sorted(nodes, chain[..at] + [x] + chain[at..])
  {
    var after := chain[..at] + [x] + chain[at..];
    forall i | 0 <= i < at
      ensures Before(nodes[chain[i]].v, nodes[x].v.key, nodes[x].v.seqno)
    {
      if i < at - 1 {
        BeforeTrans(nodes[chain[i]].v, nodes[chain[at - 1]].v, nodes[x].v);
      }
    }
    forall i | at <= i < |chain|
      ensures Before(nodes[x].v, nodes[chain[i]].v.key, nodes[chain[i]].v.seqno)
    {
      if i > at {
        BeforeTrans(nodes[x].v, nodes[chain[at]].v, nodes[chain[i]].v);
      }
    }
    assert forall i | 0 <= i < |after| :: after[i] == if i < at then chain[i] else if i == at then x else chain[i - 1];
  }

  lemma SortedDistinct(nodes: map<nat, Entry>, chain: seq<nat>, i: nat, j: nat)
    requires Sorted(nodes, chain) && i < |chain| && j < |chain| && i != j
    ensures chain[i] != chain[j]
  {
    KeyOrder();
    if i < j {
      assert Before(nodes[chain[i]].v, nodes[chain[j]].v.key, nodes[chain[j]].v.seqno);
    } else {
      assert Before(nodes[chain[j]].v, nodes[chain[i]].v.key, nodes[chain[i]].v.seqno);
    }
  }

  lemma PredecessorPoints(sh: Shared, pred: nat, level: nat, x: nat)
    requires Readable(sh, pred, level)
    ensures var sh' := sh.(links := sh.links[Slot(sh, pred, level) := x]);
            Readable(sh', pred, level) && Next(sh', pred, level) == x
  {
  }

  /** What stands at each position of a spliced chain and right after it. */
  lemma SplicedOrder(chain: seq<nat>, at: nat, x: nat, i: nat)
    requires at <= |chain| && i <= |chain|
    ensures var after := chain[..at] + [x] + chain[at..];
            && |after| == |chain| + 1
            && after[i] == (if i < at then chain[i] else if i == at then x else chain[i - 1])
            && After(after, i + 1) == if i + 1 == at then x else After(chain, if i < at then i + 1 else i)
  {
  }

  lemma ThreadedAt(sh: Shared, chain: seq<nat>, level: nat, i: nat)
    requires LevelInv(sh, chain, level) && i < |chain|
    ensures Readable(sh, chain[i], level) && Next(sh, chain[i], level) == After(chain, i + 1)
  {
  }

  lemma OnlyOnePredecessor(nodes: map<nat, Entry>, chain: seq<nat>, pred: nat, j: nat)
    requires Sorted(nodes, chain) && (pred == HEAD || pred in chain) && j < |chain|
    ensures chain[j] == pred <==> j + 1 == PlaceAfter(chain, pred)
  {
    if pred != HEAD && j + 1 != PlaceAfter(chain, pred) {
      SortedDistinct(nodes, chain, j, PlaceAfter(chain, pred) - 1);
    }
  }

  /** One position of the level after the splice. */
  lemma SplicedAt(sh: Shared, owner: seq<nat>, used: set<nat>, chain: seq<nat>, level: nat, pred: nat, x: nat, i: nat)
    requires NodesInv(sh, owner, used) && LevelInv(sh, chain, level) && (pred == HEAD || pred in chain)
    requires Readable(sh, pred, level) && Readable(sh, x, level) && x != HEAD && x !in chain
    requires Next(sh, x, level) == After(chain, PlaceAfter(chain, pred)) && i <= |chain|
    ensures var at := PlaceAfter(chain, pred);
            var after := chain[..at] + [x] + chain[at..];
            var sh' := sh.(links := sh.links[Slot(sh, pred, level) := x]);
            Readable(sh', after[i], level) && Next(sh', after[i], level) == After(after, i + 1)
  {
    hide NodesInv, LevelInv, Sorted, Threaded, Next, Slot, After, PlaceAfter, Readable;
    var at := PlaceAfter(chain, pred);
    SplicedOrder(chain, at, x, i);
    if i == at {
      WriteKeepsLink(sh, owner, used, x, level, pred, level, x);
    } else {
      LinkAfterSplice(sh, owner, used, chain, level, pred, x, if i < at then i else i - 1);
    }
  }

  /** The link of a node already there: to the new node from its predecessor, as before from the others. */
  lemma LinkAfterSplice(sh: Shared, owner: seq<nat>, used: set<nat>, chain: seq<nat>, level: nat, pred: nat, x: nat,
                        j: nat)
    requires NodesInv(sh, owner, used) && LevelInv(sh, chain, level) && (pred == HEAD || pred in chain)
    requires Readable(sh, pred, level) && j < |chain|
    ensures var sh' := sh.(links := sh.links[Slot(sh, pred, level) := x]);
            && Readable(sh', chain[j], level)
            && Next(sh', chain[j], level) == if j + 1 == PlaceAfter(chain, pred) then x else After(chain, j + 1)
  {
    hide NodesInv, LevelInv, Sorted, Threaded, Next, Slot, After, PlaceAfter, Readable;
    LevelParts(sh, chain, level);
    ThreadedAt(sh, chain, level, j);
    OnlyOnePredecessor(sh.nodes, chain, pred, j);
    if chain[j] == pred {
      PredecessorPoints(sh, pred, level, x);
    } else {
      WriteKeepsLink(sh, owner, used, chain[j], level, pred, level, x);
    }
  }

  /** Pointing the predecessor at a node that already points at the predecessor's successor threads it in. */
  lemma SplicedThreaded(sh: Shared, owner: seq<nat>, used: set<nat>, chain: seq<nat>, level: nat, pred: nat, x: nat)
    requires NodesInv(sh, owner, used) && LevelInv(sh, chain, level) && (pred == HEAD || pred in chain)
    requires Readable(sh, pred, level) && Readable(sh, x, level) && x != HEAD && x !in chain
    requires Next(sh, x, level) == After(chain, PlaceAfter(chain, pred))
    ensures var at := PlaceAfter(chain, pred);
            Threaded(sh.(links := sh.links[Slot(sh, pred, level) := x]), chain[..at] + [x] + chain[at..], level)
  {
    hide NodesInv, Sorted, Next;
    var at := PlaceAfter(chain, pred);
    var after := chain[..at] + [x] + chain[at..];
    var sh' := sh.(links := sh.links[Slot(sh, pred, level) := x]);
    forall i | 0 <= i < |after|
      ensures Readable(sh', after[i], level) && Next(sh', after[i], level) == After(after, i + 1)
    {
      SplicedAt(sh, owner, used, chain, level, pred, x, i);
    }
    HeadAfterSplice(sh, owner, used, chain, level, pred, x);
  }

  lemma HeadAfterSplice(sh: Shared, owner: seq<nat>, used: set<nat>, chain: seq<nat>, level: nat, pred: nat, x: nat)
    requires NodesInv(sh, owner, used) && LevelInv(sh, chain, level) && (pred == HEAD || pred in chain)
    requires Readable(sh, pred, level)
    ensures var at := PlaceAfter(chain, pred);
            var sh' := sh.(links := sh.links[Slot(sh, pred, level) := x]);
            Readable(sh', HEAD, level) && Next(sh', HEAD, level) == After(chain[..at] + [x] + chain[at..], 0)
  {
    hide NodesInv;
    if pred != HEAD {
      WriteKeepsLink(sh, owner, used, HEAD, level, pred, level, x);
    }
  }

  /** Where the predecessor's link still holds the recorded successor, the new node belongs between the two. */
  lemma SwapFits(s: State, t: nat, pc: Pc)
    requires NodesInv(s.sh, s.owner, s.used) && ChainsInv(s.sh, s.chains) && pc.Swap? && ThreadInv(s, t, pc)
    requires var pred := pc.preds[pc.level];
             Readable(s.sh, pred, pc.level) && (pred == HEAD || pred in s.chains[pc.level])
             && Next(s.sh, pred, pc.level) == pc.succs[pc.level]
    ensures var chain, pred, x := s.chains[pc.level], pc.preds[pc.level], pc.ins.index;
            var at := PlaceAfter(chain, pred);
            && Next(s.sh, x, pc.level) == After(chain, at)
            && (at > 0 ==> Before(s.sh.nodes[chain[at - 1]].v, s.sh.nodes[x].v.key, s.sh.nodes[x].v.seqno))
            && (at < |chain| ==> Before(s.sh.nodes[x].v, s.sh.nodes[chain[at]].v.key, s.sh.nodes[chain[at]].v.seqno))
  {
    var chain, pred, x := s.chains[pc.level], pc.preds[pc.level], pc.ins.index;
    var at := PlaceAfter(chain, pred);
    assert LevelInv(s.sh, chain, pc.level);
    assert Next(s.sh, pred, pc.level) == After(chain, at);
    if at < |chain| {
      var succ := chain[at];
      assert succ in s.sh.nodes && succ != HEAD && succ in chain && succ != x;
      assert succ < NIL;
      assert SuccOk(s.sh, chain, Link(pc.ins, pc.level), succ);
      BeforeTotal(s.sh.nodes[succ].v, s.sh.nodes[x].v);
    }
  }

  lemma SwapChains(s: State, t: nat, s': State)
    requires NodesInv(s.sh, s.owner, s.used) && ChainsInv(s.sh, s.chains) && SwapLink(s, t, s')
             && ThreadInv(s, t, s.threads[t])
    requires Next(s.sh, s.threads[t].preds[s.threads[t].level], s.threads[t].level)
             == s.threads[t].succs[s.threads[t].level]
    ensures ChainsInv(s'.sh, s'.chains)
  {
    hide NodesInv, LevelInv, Sorted, Threaded, Before, InsInv, PairsInv, PredOk, SuccOk;
    SwapIndex(s, t);
    var pc := s.threads[t];
    var chain, pred, x, level := s.chains[pc.level], pc.preds[pc.level], pc.ins.index, pc.level;
    var at := PlaceAfter(chain, pred);
    SwapFits(s, t, pc);
    LevelParts(s.sh, chain, level);
    SplicedSorted(s.sh.nodes, chain, at, x);
    SplicedThreaded(s.sh, s.owner, s.used, chain, level, pred, x);
    LevelJoin(s'.sh, s'.chains[level], level);
    forall l | 0 <= l < MAX_HEIGHT && l != level
      ensures LevelInv(s'.sh, s'.chains[l], l)
    {
      WriteElsewhere(s.sh, s.owner, s.used, s.chains[l], l, pred, level, x);
    }
    assert forall y :: y in s'.chains[level] <==> y in chain || y == x;
    SublistsKeep(s.sh, s.chains, level, x, s'.chains[level]);
  }

  lemma SwapIndex(s: State, t: nat)
    requires NodesInv(s.sh, s.owner, s.used) && t in s.threads && s.threads[t].Swap? && ThreadInv(s, t, s.threads[t])
    ensures var pc := s.threads[t];
            && pc.ins.index != HEAD && pc.ins.index in s.sh.nodes && pc.level < MAX_HEIGHT && pc.level < s.sh.top
               && |s.chains| == MAX_HEIGHT
            && (forall l | pc.level <= l < MAX_HEIGHT :: pc.ins.index !in s.chains[l])
            && (forall l | 0 <= l < pc.level :: pc.ins.index in s.chains[l])
  {
  }

  /** Linking a node at one level, once it is linked at all levels below, keeps the levels nested. */
  lemma SublistsKeep(sh: Shared, chains: seq<seq<nat>>, level: nat, x: nat, after: seq<nat>)
    requires |chains| == MAX_HEIGHT && level < MAX_HEIGHT && level < sh.top
    requires forall l, m, y | 0 <= m < l < MAX_HEIGHT && y in chains[l] :: y in chains[m]
    requires forall l | sh.top <= l < MAX_HEIGHT :: chains[l] == []
    requires forall l | 0 <= l < level :: x in chains[l]
    requires forall y :: y in after <==> y in chains[level] || y == x
    ensures var now := chains[level := after];
            && (forall l, m, y | 0 <= m < l < MAX_HEIGHT && y in now[l] :: y in now[m])
            && (forall l | sh.top <= l < MAX_HEIGHT :: now[l] == [])
  {
  }

  lemma LevelParts(sh: Shared, chain: seq<nat>, level: nat)
    requires LevelInv(sh, chain, level)
    ensures Sorted(sh.nodes, chain) && Threaded(sh, chain, level)
  {
  }

  lemma LevelJoin(sh: Shared, chain: seq<nat>, level: nat)
    requires Sorted(sh.nodes, chain) && Threaded(sh, chain, level)
    ensures LevelInv(sh, chain, level)
  {
  }

  lemma SwapHolds(s: State, t: nat, s': State)
    requires NodesInv(s.sh, s.owner, s.used) && ChainsInv(s.sh, s.chains) && SwapLink(s, t, s')
             && ThreadInv(s, t, s.threads[t])
    ensures ThreadInv(s', t, s'.threads[t])
  {
    hide NodesInv, LevelInv;
    var pc := s.threads[t];
    var pred, level := pc.preds[pc.level], pc.level;
    if Next(s.sh, pred, level) == pc.succs[level] {
      assert forall y :: y in s'.chains[level] <==> y in s.chains[level] || y == pc.ins.index;
      assert forall l | 0 <= l < MAX_HEIGHT && l != level :: s'.chains[l] == s.chains[l];
      TopBound(s);
      NextLevelPairs(s, s', pc);
    }
  }

  /** The pairs recorded for the levels above still hold once the level is linked. */
  lemma NextLevelPairs(s: State, s': State, pc: Pc)
    requires pc.Swap? && PairsInv(s, Link(pc.ins, pc.level), pc.preds, pc.succs, pc.level)
    requires s'.sh.nodes == s.sh.nodes && |s'.chains| == MAX_HEIGHT
             && forall l | pc.level < l < MAX_HEIGHT :: s'.chains[l] == s.chains[l]
    ensures PairsInv(s', Link(pc.ins, pc.level + 1), pc.preds, pc.succs, pc.level + 1)
  {
  }

  lemma SwapFrame(s: State, t: nat, s': State)
    requires NodesInv(s.sh, s.owner, s.used) && ChainsInv(s.sh, s.chains) && SwapLink(s, t, s')
             && ThreadInv(s, t, s.threads[t])
    ensures Frame(s, t, s')
  {
    hide NodesInv, LevelInv, PairsInv;
    var pc := s.threads[t];
    var pred, level := pc.preds[pc.level], pc.level;
    if Next(s.sh, pred, level) == pc.succs[level] {
      assert forall y :: y in s'.chains[level] <==> y in s.chains[level] || y == pc.ins.index;
      forall i: nat, l: nat | (i != pred || l != level) && Readable(s.sh, i, l)
        ensures Next(s'.sh, i, l) == Next(s.sh, i, l)
      {
        SlotsDiffer(s.sh, s.owner, s.used, i, l, pred, level);
      }
    }
  }

  lemma SwapLinkKeeps(s: State, t: nat, s': State)
    requires Inv(s) && SwapLink(s, t, s')
    ensures Inv(s')
  {
    hide NodesInv, ChainsInv, ThreadInv, Apart, Frame;
    var pc := s.threads[t];
    SwapHolds(s, t, s');
    SwapFrame(s, t, s');
    if Next(s.sh, pc.preds[pc.level], pc.level) == pc.succs[pc.level] {
      SwapChains(s, t, s');
    }
    StoredNodes(s, s');
    StillApart(s, t, s');
    Compose(s, t, s');
  }
}
