/** Every step of every thread keeps the skiplist's invariant. */
module SkiplistSteps {
  import opened Keys
  import opened Versions
  import opened Skiplist
  import opened SkiplistInvariant

  // ---- Reserving and publishing a node ----

  lemma TakeNodeKeeps(s: State, t: nat, s': State, v: Version)
    requires Inv(s) && TakeNode(s, t, s', v)
    ensures Inv(s')
  {
    hide NodesInv, ChainsInv, ThreadInv, Apart, TakeNode, Frame;
    TakenNodes(s, t, s', v);
    TakenFrame(s, t, s', v);
    NumberedHolds(s, t, s', v);
    TakenApart(s, t, s', v);
    Compose(s, t, s');
  }

  lemma TakenNodes(s: State, t: nat, s': State, v: Version)
    requires NodesInv(s.sh, s.owner, s.used) && ChainsInv(s.sh, s.chains) && TakeNode(s, t, s', v)
    ensures NodesInv(s'.sh, s'.owner, s'.used) && ChainsInv(s'.sh, s'.chains)
  {
    hide LevelInv;
    ChainsSame(s.sh, s'.sh, s.chains);
  }

  lemma TakenFrame(s: State, t: nat, s': State, v: Version)
    requires NodesInv(s.sh, s.owner, s.used) && ChainsInv(s.sh, s.chains) && Apart(s) && TakeNode(s, t, s', v)
    ensures Frame(s, t, s')
  {
    hide LevelInv, NodesInv;
  }

  lemma NumberedHolds(s: State, t: nat, s': State, v: Version)
    requires NodesInv(s.sh, s.owner, s.used) && TakeNode(s, t, s', v)
    ensures ThreadInv(s', t, s'.threads[t])
  {
  }

  lemma TakenApart(s: State, t: nat, s': State, v: Version)
    requires Inv(s) && TakeNode(s, t, s', v)
    ensures Apart(s')
  {
    hide NodesInv, ChainsInv, ThreadInv;
    forall u, w | u in s.threads && u != t && VersionOf(s.threads[u], w)
      ensures w.seqno in s.used
    {
      NumberIsUsed(s, u, w);
    }
  }

  lemma NumberIsUsed(s: State, u: nat, w: Version)
    requires u in s.threads && ThreadInv(s, u, s.threads[u]) && VersionOf(s.threads[u], w)
    ensures w.seqno in s.used
  {
  }

  /** A level reads the same with more nodes around it. */
  lemma LevelGrows(sh: Shared, sh': Shared, chain: seq<nat>, l: nat)
    requires LevelInv(sh, chain, l) && sh'.links == sh.links
    requires forall i | i in sh.nodes :: i in sh'.nodes && sh'.nodes[i] == sh.nodes[i]
    ensures LevelInv(sh', chain, l)
  {
    hide Before;
  }

  /** Chains depend on nothing but the nodes, the links and the top. */
  lemma ChainsSame(sh: Shared, sh': Shared, chains: seq<seq<nat>>)
    requires ChainsInv(sh, chains) && sh'.nodes == sh.nodes && sh'.links == sh.links && sh'.top >= sh.top
    ensures ChainsInv(sh', chains)
  {
    hide LevelInv;
    forall l | 0 <= l < MAX_HEIGHT
      ensures LevelInv(sh', chains[l], l)
    {
      LevelGrows(sh, sh', chains[l], l);
    }
  }

  lemma LoadNextLinkKeeps(s: State, t: nat, s': State, want: nat)
    requires Inv(s) && LoadNextLink(s, t, s', want)
    ensures Inv(s')
  {
    hide NodesInv, ChainsInv;
    assert ThreadInv(s, t, s.threads[t]);
    ReadOnlyFrame(s, t, s');
  }

  lemma ReserveTowerKeeps(s: State, t: nat, s': State)
    requires Inv(s) && ReserveTower(s, t, s')
    ensures Inv(s')
  {
    hide NodesInv, ChainsInv, ThreadInv, Apart, Frame, VersionOf;
    SizingHolds(s, t, s');
    ReservedVersions(s, t, s');
    StillApart(s, t, s');
    if s.sh.nextLink == s.threads[t].start {
      ReservedFrame(s, t, s');
      ChainsSame(s.sh, s'.sh, s.chains);
      ReservedNodes(s, t, s');
      Compose(s, t, s');
    } else {
      ReadOnlyFrame(s, t, s');
    }
  }

  lemma ReservedVersions(s: State, t: nat, s': State)
    requires ReserveTower(s, t, s')
    ensures t in s.threads && t in s'.threads && forall v | VersionOf(s'.threads[t], v) :: VersionOf(s.threads[t], v)
  {
  }

  lemma ReservedFrame(s: State, t: nat, s': State)
    requires ChainsInv(s.sh, s.chains) && NodesInv(s.sh, s.owner, s.used) && ReserveTower(s, t, s')
             && s.sh.nextLink == s.threads[t].start
    ensures Frame(s, t, s')
  {
    hide LevelInv, NodesInv;
  }

  lemma SizingHolds(s: State, t: nat, s': State)
    requires NodesInv(s.sh, s.owner, s.used) && ReserveTower(s, t, s') && ThreadInv(s, t, s.threads[t])
    ensures ThreadInv(s', t, s'.threads[t])
  {
  }

  lemma ReservedNodes(s: State, t: nat, s': State)
    requires NodesInv(s.sh, s.owner, s.used) && ReserveTower(s, t, s') && s.sh.nextLink == s.threads[t].start
    ensures NodesInv(s'.sh, s'.owner, s'.used)
  {
    forall i | i in s.sh.nodes
      ensures Owns(s'.owner, i, s.sh.nodes[i].tower, s.sh.nodes[i].height)
    {
      assert Owns(s.owner, i, s.sh.nodes[i].tower, s.sh.nodes[i].height);
    }
  }

  lemma PublishKeeps(s: State, t: nat, s': State)
    requires Inv(s) && Publish(s, t, s')
    ensures Inv(s')
  {
    hide NodesInv, ChainsInv, ThreadInv, Apart, Frame;
    PublishedNodes(s, t, s');
    PublishedFrame(s, t, s');
    PublishedHolds(s, t, s');
    PlacedIsNew(s, t);
    ChainsGrow(s.sh, s'.sh, s.chains);
    StillApart(s, t, s');
    Compose(s, t, s');
  }

  lemma PlacedIsNew(s: State, t: nat)
    requires t in s.threads && s.threads[t].Placed? && ThreadInv(s, t, s.threads[t])
    ensures s.threads[t].ins.index !in s.sh.nodes
  {
  }

  lemma PublishedNodes(s: State, t: nat, s': State)
    requires NodesInv(s.sh, s.owner, s.used) && Publish(s, t, s') && ThreadInv(s, t, s.threads[t])
    ensures NodesInv(s'.sh, s'.owner, s'.used)
  {
  }

  lemma PublishedFrame(s: State, t: nat, s': State)
    requires ChainsInv(s.sh, s.chains) && Publish(s, t, s') && ThreadInv(s, t, s.threads[t]) && Apart(s)
    ensures Frame(s, t, s')
  {
    hide ChainsInv, ThreadInv, Apart, NoClash, SharedGrows, OnlyOwnNodes, OnlyOwnLinks;
    PlacedParts(s, t);
    PublishedNoClash(s, t, s');
    PublishedShares(s, t, s');
    PublishedOwnNodes(s, t, s');
    PublishedOwnLinks(s, t, s');
  }

  lemma PlacedParts(s: State, t: nat)
    requires ChainsInv(s.sh, s.chains) && t in s.threads && s.threads[t].Placed? && ThreadInv(s, t, s.threads[t])
    ensures |s.chains| == MAX_HEIGHT
    ensures var i := s.threads[t].ins.index; i !in s.sh.nodes && i in s.claim && s.claim[i] == t
  {
    hide LevelInv;
  }

  lemma PublishedShares(s: State, t: nat, s': State)
    requires Publish(s, t, s') && s.threads[t].ins.index !in s.sh.nodes
    ensures SharedGrows(s, s')
  {
  }

  lemma PublishedOwnNodes(s: State, t: nat, s': State)
    requires Publish(s, t, s') && |s.chains| == MAX_HEIGHT
    requires var i := s.threads[t].ins.index; i in s.claim && s.claim[i] == t
    ensures OnlyOwnNodes(s, t, s')
  {
  }

  lemma PublishedOwnLinks(s: State, t: nat, s': State)
    requires Publish(s, t, s') && |s.chains| == MAX_HEIGHT && s.threads[t].ins.index !in s.sh.nodes
    ensures OnlyOwnLinks(s, t, s')
  {
  }

  lemma PublishedNoClash(s: State, t: nat, s': State)
    requires Publish(s, t, s') && Apart(s)
    ensures NoClash(s, t, s')
  {
    assert VersionOf(s.threads[t], s.threads[t].ins.v);
    hide VersionOf;
  }

  lemma PublishedHolds(s: State, t: nat, s': State)
    requires ChainsInv(s.sh, s.chains) && Publish(s, t, s') && ThreadInv(s, t, s.threads[t])
    ensures ThreadInv(s', t, s'.threads[t])
  {
    var ins := s.threads[t].ins;
    forall l | 0 <= l < MAX_HEIGHT
      ensures ins.index !in s.chains[l]
    {
      assert LevelInv(s.sh, s.chains[l], l);
    }
  }

  /** Publishing a node changes no link and no entry already there. */
  lemma ChainsGrow(sh: Shared, sh': Shared, chains: seq<seq<nat>>)
    requires ChainsInv(sh, chains) && sh'.links == sh.links && sh'.top == sh.top
    requires forall i | i in sh.nodes :: i in sh'.nodes && sh'.nodes[i] == sh.nodes[i]
    ensures ChainsInv(sh', chains)
  {
    hide LevelInv;
    forall l | 0 <= l < MAX_HEIGHT
      ensures LevelInv(sh', chains[l], l)
    {
      LevelGrows(sh, sh', chains[l], l);
    }
  }

  // ---- Raising the top and walking ----

  lemma LoadTopKeeps(s: State, t: nat, s': State)
    requires Inv(s) && LoadTop(s, t, s')
    ensures Inv(s')
  {
    hide NodesInv, ChainsInv;
    assert ThreadInv(s, t, s.threads[t]);
    ReadOnlyFrame(s, t, s');
  }

  lemma RaiseTopKeeps(s: State, t: nat, s': State)
    requires Inv(s) && RaiseTop(s, t, s')
    ensures Inv(s')
  {
    hide NodesInv, ChainsInv, ThreadInv, Apart, Frame;
    RaisingHolds(s, t, s');
    StillApart(s, t, s');
    if s'.sh == s.sh {
      ReadOnlyFrame(s, t, s');
    } else {
      RaisedFrame(s, t, s');
      ChainsSame(s.sh, s'.sh, s.chains);
      RaisedNodes(s, t, s');
      Compose(s, t, s');
    }
  }

  lemma RaisedFrame(s: State, t: nat, s': State)
    requires ChainsInv(s.sh, s.chains) && RaiseTop(s, t, s')
    ensures Frame(s, t, s') && s'.sh.top >= s.sh.top
  {
    hide LevelInv;
  }

  lemma RaisedNodes(s: State, t: nat, s': State)
    requires NodesInv(s.sh, s.owner, s.used) && RaiseTop(s, t, s') && ThreadInv(s, t, s.threads[t])
    ensures NodesInv(s'.sh, s'.owner, s'.used)
  {
    var ins := s.threads[t].ins;
    assert Owns(s.owner, ins.index, ins.tower, ins.height);
  }

  lemma RaisingHolds(s: State, t: nat, s': State)
    requires NodesInv(s.sh, s.owner, s.used) && RaiseTop(s, t, s') && ThreadInv(s, t, s.threads[t])
    ensures ThreadInv(s', t, s'.threads[t])
  {
    var ins := s.threads[t].ins;
    assert Owns(s.owner, ins.index, ins.tower, ins.height);
  }

  lemma StartFindKeeps(s: State, t: nat, s': State, key: Bytes)
    requires Inv(s) && StartFind(s, t, s', key)
    ensures Inv(s')
  {
    hide NodesInv, ChainsInv;
    ReadOnlyFrame(s, t, s');
  }

  lemma StartWalkKeeps(s: State, t: nat, s': State)
    requires Inv(s) && StartWalk(s, t, s')
    ensures Inv(s')
  {
    assert t in s.threads;
    hide NodesInv, ChainsInv, Apart, ThreadInv;
    StartWalkHolds(s, t, s');
    ReadOnlyFrame(s, t, s');
  }

  lemma StartWalkHolds(s: State, t: nat, s': State)
    requires NodesInv(s.sh, s.owner, s.used) && ChainsInv(s.sh, s.chains) && StartWalk(s, t, s')
    requires ThreadInv(s, t, s.threads[t])
    ensures ThreadInv(s', t, s'.threads[t])
  {
    hide LevelInv, JobInv;
    JobRebase(s, s', t, s.threads[t].job);
  }

  /** What a job needs does not depend on where threads stand. */
  lemma JobRebase(s: State, s': State, t: nat, job: Job)
    requires s' == s.(threads := s'.threads)
    ensures JobInv(s, t, job) <==> JobInv(s', t, job)
  {
  }

  /** A node reached by a walk at some level has a tower that reaches that level, and so does the one below it. */
  lemma StandsOnTower(s: State, job: Job, level: nat, node: nat)
    requires NodesInv(s.sh, s.owner, s.used) && ChainsInv(s.sh, s.chains) && level < MAX_HEIGHT
    requires PredOk(s.sh, s.chains[level], job, node)
    ensures Readable(s.sh, node, level)
    ensures level > 0 ==> PredOk(s.sh, s.chains[level - 1], job, node)
  {
    assert LevelInv(s.sh, s.chains[level], level);
    if node != HEAD {
      var i := IndexOf(s.chains[level], node);
    }
  }

  /** Whatever a link leads to is linked at that level. */
  lemma NextIsLinked(s: State, job: Job, level: nat, node: nat)
    requires NodesInv(s.sh, s.owner, s.used) && ChainsInv(s.sh, s.chains) && level < MAX_HEIGHT
    requires PredOk(s.sh, s.chains[level], job, node) && Readable(s.sh, node, level)
    ensures var next := Next(s.sh, node, level); next == NIL || (next in s.chains[level] && next in s.sh.nodes)
  {
    assert LevelInv(s.sh, s.chains[level], level);
    if node != HEAD {
      var i := IndexOf(s.chains[level], node);
    }
  }

  lemma WalkHolds(s: State, t: nat, s': State)
    requires NodesInv(s.sh, s.owner, s.used) && ChainsInv(s.sh, s.chains) && ReadLink(s, t, s')
             && ThreadInv(s, t, s.threads[t])
    ensures ThreadInv(s', t, s'.threads[t])
    ensures forall v :: !VersionOf(s'.threads[t], v)
  {
    hide LevelInv, JobInv, ChainsInv, NodesInv, Precedes;
    var pc := s.threads[t];
    StandsOnTower(s, pc.job, pc.level, pc.node);
    NextIsLinked(s, pc.job, pc.level, pc.node);
    JobRebase(s, s', t, pc.job);
    TopBound(s);
  }

  lemma TopBound(s: State)
    requires NodesInv(s.sh, s.owner, s.used)
    ensures 1 <= s.sh.top <= MAX_HEIGHT
  {
  }

  lemma ReadLinkKeeps(s: State, t: nat, s': State)
    requires Inv(s) && ReadLink(s, t, s')
    ensures Inv(s')
  {
    hide NodesInv, ChainsInv, ThreadInv, VersionOf;
    WalkHolds(s, t, s');
    ReadOnlyFrame(s, t, s');
  }

  lemma ReturnKeeps(s: State, t: nat, s': State)
    requires Inv(s) && Return(s, t, s')
    ensures Inv(s')
  {
    hide NodesInv, ChainsInv;
    ReadOnlyFrame(s, t, s');
  }
}
