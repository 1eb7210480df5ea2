/** Walking a skiplist that no longer takes writes, and its agreement with the ordered map. */
module SkiplistVisit {
  import opened Keys
  import opened Versions
  import opened Merge
  import opened Memtable
  import opened Skiplist
  import opened SkiplistInvariant
  import opened SkiplistSafety
  import C = SkiplistConverge
  import L = SkiplistLinking

  /** The bottom level as a walk finds it. */
  ghost predicate Walkable(sh: Shared, chain: seq<nat>) {
    LevelInv(sh, chain, 0) && Known(sh.nodes, chain) && forall i | i in sh.nodes :: i < NIL
  }

  lemma ReachableIsWalkable(states: seq<State>, steps: seq<(nat, Step)>, i: nat)
    requires Run(states, steps) && i < |states|
    ensures |states[i].chains| > 0 && Walkable(states[i].sh, states[i].chains[0]) && HasBottom(states[i])
  {
    hide ThreadInv, Apart, Takes, Initial, LevelInv;
    RunHolds(states, steps, i);
    ChainMembers(states[i]);
    NodesBelowNil(states[i].sh, states[i].owner, states[i].used);
  }

  /** The versions of the first `i` nodes that are the newest of their key. */
  ghost function NewestSeen(nodes: map<nat, Skiplist.Entry>, chain: seq<nat>, i: nat): set<Version>
    requires Known(nodes, chain) && i <= |chain|
  {
    set j | 0 <= j < i && NewestIn(nodes[chain[j]].v, Carried(nodes, chain)) :: nodes[chain[j]].v
  }

  /** Where a visit stands before node `i`: what it has visited, and the key it saw last. */
  ghost predicate Visiting(sh: Shared, chain: seq<nat>, i: nat, node: nat, previous: Option<Bytes>,
                           visited: seq<Version>)
    requires Known(sh.nodes, chain)
  {
    && i <= |chain| && node == After(chain, i)
    && previous == (if i == 0 then None else Some(sh.nodes[chain[i - 1]].v.key))
    && Ascending(visited) && Members(visited) == NewestSeen(sh.nodes, chain, i)
    && (forall v | v in visited :: i > 0 && !Less(sh.nodes[chain[i - 1]].v.key, v.key))
  }

  lemma VisitStarts(sh: Shared, chain: seq<nat>)
    requires Walkable(sh, chain)
    ensures Skiplist.Readable(sh, HEAD, 0) && Visiting(sh, chain, 0, Next(sh, HEAD, 0), None, [])
  {
  }

  lemma NodeAt(sh: Shared, chain: seq<nat>, i: nat, node: nat)
    requires Walkable(sh, chain) && i <= |chain| && node == After(chain, i)
    ensures node == NIL <==> i == |chain|
    ensures i < |chain| ==>
              && node == chain[i] && node in sh.nodes && Skiplist.Readable(sh, node, 0)
              && Next(sh, node, 0) == After(chain, i + 1)
  {
    if i < |chain| {
      assert chain[i] in sh.nodes;
    }
  }

  lemma VisitGoesOn(sh: Shared, chain: seq<nat>, i: nat, node: nat, previous: Option<Bytes>, visited: seq<Version>)
    requires Walkable(sh, chain) && i < |chain| && Visiting(sh, chain, i, node, previous, visited) && node == chain[i]
    ensures var v := sh.nodes[node].v;
            Visiting(sh, chain, i + 1, After(chain, i + 1), Some(v.key), if previous == Some(v.key) then visited
                     else visited + [v])
  {
    hide *;
    LevelIsSorted(sh, chain);
    var v := sh.nodes[node].v;
    VisitingParts(sh, chain, i, node, previous, visited);
    NewestByNeighbour(sh.nodes, chain, i);
    SeenOneMore(sh.nodes, chain, i);
    StepsUp(sh, chain, i, visited);
    MembersWith(visited, v);
    VisitingAgain(sh, chain, i + 1, if previous == Some(v.key) then visited else visited + [v]);
  }

  lemma MembersWith(visited: seq<Version>, v: Version)
    ensures Members(visited + [v]) == Members(visited) + {v}
  {
  }

  lemma VisitingParts(sh: Shared, chain: seq<nat>, i: nat, node: nat, previous: Option<Bytes>, visited: seq<Version>)
    requires Known(sh.nodes, chain) && Visiting(sh, chain, i, node, previous, visited)
    ensures previous == (if i == 0 then None else Some(sh.nodes[chain[i - 1]].v.key))
    ensures Ascending(visited) && Members(visited) == NewestSeen(sh.nodes, chain, i)
    ensures forall v | v in visited :: i > 0 && !Less(sh.nodes[chain[i - 1]].v.key, v.key)
  {
    hide Ascending, Less, NewestSeen;
  }

  lemma VisitingAgain(sh: Shared, chain: seq<nat>, i: nat, visited: seq<Version>)
    requires Known(sh.nodes, chain) && 0 < i <= |chain| && Ascending(visited)
             && Members(visited) == NewestSeen(sh.nodes, chain, i)
    requires forall v | v in visited :: !Less(sh.nodes[chain[i - 1]].v.key, v.key)
    ensures Visiting(sh, chain, i, After(chain, i), Some(sh.nodes[chain[i - 1]].v.key), visited)
  {
    hide Ascending, Less, NewestSeen;
  }

  lemma LevelIsSorted(sh: Shared, chain: seq<nat>)
    requires Walkable(sh, chain)
    ensures Sorted(sh.nodes, chain) && Known(sh.nodes, chain) && forall x | x in chain :: x in sh.nodes
  {
  }

  lemma SeenOneMore(nodes: map<nat, Skiplist.Entry>, chain: seq<nat>, i: nat)
    requires Known(nodes, chain) && i < |chain|
    ensures NewestSeen(nodes, chain, i + 1)
            == NewestSeen(nodes, chain, i) + (if NewestIn(nodes[chain[i]].v, Carried(nodes, chain))
                                              then {nodes[chain[i]].v} else {})
  {
  }

  /** A new key sorts after everything visited. */
  lemma StepsUp(sh: Shared, chain: seq<nat>, i: nat, visited: seq<Version>)
    requires Walkable(sh, chain) && i < |chain| && Ascending(visited)
    requires forall v | v in visited :: i > 0 && !Less(sh.nodes[chain[i - 1]].v.key, v.key)
    ensures forall v | v in visited :: !Less(sh.nodes[chain[i]].v.key, v.key)
    ensures (i == 0 || sh.nodes[chain[i - 1]].v.key != sh.nodes[chain[i]].v.key)
            ==> Ascending(visited + [sh.nodes[chain[i]].v])
    ensures !Less(sh.nodes[chain[i]].v.key, sh.nodes[chain[i]].v.key)
  {
    KeyOrder();
    var v := sh.nodes[chain[i]].v;
    assert i > 0 ==> Before(sh.nodes[chain[i - 1]].v, v.key, v.seqno);
    forall j | 0 <= j < |visited|
      ensures !Less(v.key, visited[j].key)
      ensures sh.nodes[chain[i - 1]].v.key != v.key ==> Less(visited[j].key, v.key)
    {
      assert visited[j] in visited;
    }
  }

  lemma VisitEnds(sh: Shared, chain: seq<nat>)
    requires Walkable(sh, chain)
    ensures NewestSeen(sh.nodes, chain, |chain|) == Reduce(Carried(sh.nodes, chain))
  {
    var all := Carried(sh.nodes, chain);
    forall v | v in Reduce(all)
      ensures v in NewestSeen(sh.nodes, chain, |chain|)
    {
      var x :| x in chain && sh.nodes[x].v == v;
      var j :| 0 <= j < |chain| && chain[j] == x;
    }
    forall v | v in NewestSeen(sh.nodes, chain, |chain|)
      ensures v in Reduce(all)
    {
      var j :| 0 <= j < |chain| && NewestIn(sh.nodes[chain[j]].v, all) && sh.nodes[chain[j]].v == v;
      assert chain[j] in chain;
    }
  }

  /** Every key once, in increasing order, in its newest version: the older ones right behind it are skipped. */
  method ForEach(sh: Shared, ghost chain: seq<nat>) returns (visited: seq<Version>)
    requires Walkable(sh, chain)
    ensures Ascending(visited) && Members(visited) == Reduce(Carried(sh.nodes, chain))
  {
    hide Visiting, Reduce, LevelInv;
    VisitStarts(sh, chain);
    VisitEnds(sh, chain);
    visited := [];
    var previous: Option<Bytes> := None;
    var node := Next(sh, HEAD, 0);
    ghost var i := 0;
    while node != NIL
      invariant 0 <= i <= |chain| && node == After(chain, i) && Visiting(sh, chain, i, node, previous, visited)
      decreases |chain| - i
    {
      NodeAt(sh, chain, i, node);
      VisitGoesOn(sh, chain, i, node, previous, visited);
      var v := sh.nodes[node].v;
      if previous != Some(v.key) {
        visited := visited + [v];
        previous := Some(v.key);
      }
      node := Next(sh, node, 0);
      i := i + 1;
    }
    NodeAt(sh, chain, i, node);
    VisitDone(sh, chain, i, node, previous, visited);
  }

  lemma VisitDone(sh: Shared, chain: seq<nat>, i: nat, node: nat, previous: Option<Bytes>, visited: seq<Version>)
    requires Known(sh.nodes, chain) && i == |chain| && Visiting(sh, chain, i, node, previous, visited)
    ensures Ascending(visited) && Members(visited) == NewestSeen(sh.nodes, chain, |chain|)
  {
  }

  /** The number of distinct keys. */
  method Len(sh: Shared, ghost chain: seq<nat>) returns (count: nat)
    requires Walkable(sh, chain)
    ensures count == |KeysOf(Carried(sh.nodes, chain))|
  {
    hide Visiting, LevelInv, Reduce;
    VisitStarts(sh, chain);
    VisitEnds(sh, chain);
    count := 0;
    var previous: Option<Bytes> := None;
    var node := Next(sh, HEAD, 0);
    ghost var i, visited := 0, [];
    while node != NIL
      invariant 0 <= i <= |chain| && node == After(chain, i) && Visiting(sh, chain, i, node, previous, visited)
                && count == |visited|
      decreases |chain| - i
    {
      NodeAt(sh, chain, i, node);
      VisitGoesOn(sh, chain, i, node, previous, visited);
      var key := sh.nodes[node].v.key;
      if previous != Some(key) {
        visited := visited + [sh.nodes[node].v];
        count := count + 1;
        previous := Some(key);
      }
      node := Next(sh, node, 0);
      i := i + 1;
    }
    NodeAt(sh, chain, i, node);
    VisitDone(sh, chain, i, node, previous, visited);
    CountKeys(visited);
    ReducedKeys(Carried(sh.nodes, chain));
  }

  lemma {:induction false} CountKeys(visited: seq<Version>)
    requires Ascending(visited)
    ensures |KeysOf(Members(visited))| == |visited|
  {
    if visited == [] {
      assert KeysOf(Members(visited)) == {};
    } else {
      var front, last := visited[..|visited| - 1], visited[|visited| - 1];
      CountKeys(front);
      assert visited == front + [last];
      assert Members(visited) == Members(front) + {last};
      NewKey(visited);
      assert KeysOf(Members(visited)) == KeysOf(Members(front)) + {last.key};
    }
  }

  lemma NewKey(visited: seq<Version>)
    requires Ascending(visited) && visited != []
    ensures visited[|visited| - 1].key !in KeysOf(Members(visited[..|visited| - 1]))
  {
    forall i | 0 <= i < |visited| - 1
      ensures visited[i].key != visited[|visited| - 1].key
    {
      KeysDiffer(visited, i, |visited| - 1);
    }
  }

  lemma ReducedKeys(s: set<Version>)
    ensures KeysOf(Reduce(s)) == KeysOf(s)
  {
    forall v | v in s
      ensures v.key in KeysOf(Reduce(s))
    {
      assert HasKey(s, v.key);
      assert Newest(s, v.key).value in Reduce(s);
    }
  }

  // ---- Agreement with the ordered map ----

  /** No two nodes of a sorted level carry the same key and number. */
  lemma OneNodePerNumber(nodes: map<nat, Skiplist.Entry>, chain: seq<nat>, at: nat, x: nat)
    requires Known(nodes, chain) && Sorted(nodes, chain) && at < |chain| && (x in chain[..at] || x in chain[at + 1..])
    ensures x in nodes && (nodes[x].v.key != nodes[chain[at]].v.key || nodes[x].v.seqno != nodes[chain[at]].v.seqno)
  {
    KeyOrder();
    if x in chain[..at] {
      var i :| 0 <= i < at && chain[i] == x;
      assert Before(nodes[chain[i]].v, nodes[chain[at]].v.key, nodes[chain[at]].v.seqno);
    } else {
      var i :| 0 <= i < |chain| - at - 1 && chain[at + 1..][i] == x;
      assert chain[at + 1 + i] == x;
      assert Before(nodes[chain[at]].v, nodes[chain[at + 1 + i]].v.key, nodes[chain[at + 1 + i]].v.seqno);
    }
  }

  /** What an insert links is not linked yet. */
  lemma LinksSomethingNew(s: State, t: nat, s': State, w: Version)
    requires Inv(s) && Inv(s') && BottomSwap(s, t, s') && HasBottom(s) && w in Linked(s)
    ensures w.key != s.threads[t].ins.v.key || w.seqno != s.threads[t].ins.v.seqno
  {
    hide Inv, BottomSwap, Sorted, Before;
    BottomIsSorted(s');
    C.SwapParts(s, t, s');
    C.SwapNode(s, t);
    var x :| x in s.chains[0] && s.sh.nodes[x].v == w;
    var at := L.PlaceAfter(s.chains[0], s.threads[t].preds[0]);
    var chain := s'.chains[0];
    assert chain == s.chains[0][..at] + [s.threads[t].ins.index] + s.chains[0][at..];
    assert s.chains[0] == s.chains[0][..at] + s.chains[0][at..];
    assert chain[..at] == s.chains[0][..at] && chain[at + 1..] == s.chains[0][at..];
    OneNodePerNumber(s'.sh.nodes, chain, at, x);
  }

  lemma BottomIsSorted(s: State)
    requires Inv(s)
    ensures |s.chains| > 0 && Known(s.sh.nodes, s.chains[0]) && Sorted(s.sh.nodes, s.chains[0])
  {
    hide NodesInv, ThreadInv, Apart;
    ChainMembers(s);
    assert LevelInv(s.sh, s.chains[0], 0);
  }

  /** An insert reports what an ordered map reports that takes the mutations in the order they are linked. */
  lemma ReportsAgree(states: seq<State>, steps: seq<(nat, Step)>, i: nat)
    requires Run(states, steps) && i < |steps| && steps[i].1.DoSwapLink?
             && BottomSwap(states[i], steps[i].0, states[i + 1])
    ensures var s, s', ins := states[i], states[i + 1], states[i].threads[steps[i].0].ins;
            && HasBottom(s) && HasBottom(s') && Linked(s') == Linked(s) + {ins.v}
            && ins.index in s'.newest && (s'.newest[ins.index] <==> Newer(ins.v, Linked(s)))
  {
    hide Inv, Takes, Initial, Linked, BottomSwap, HasBottom;
    var s, t, s' := states[i], steps[i].0, states[i + 1];
    RunHolds(states, steps, i);
    RunHolds(states, steps, i + 1);
    InsertsReportNewest(states, steps, i);
    C.SwapLinks(s, t, s');
    C.SwapParts(s, t, s');
    forall w | w in Linked(s)
      ensures w.key != s.threads[t].ins.v.key || w.seqno != s.threads[t].ins.v.seqno
    {
      LinksSomethingNew(s, t, s', w);
    }
  }

  /**
   * A skiplist no insert is working on, and an ordered map that took the same mutations in any order: the same visit,
   * the same length, and the same answer to every lookup.
   */
  method TablesAgree(sh: Shared, tree: BTree, key: Bytes, ghost states: seq<State>, ghost steps: seq<(nat, Step)>,
                     ghost i: nat)
      returns (skipVisit: seq<Version>, treeVisit: seq<Version>, skipLen: nat, treeLen: nat, found: Lookup)
    requires Run(states, steps) && i < |states| && sh == states[i].sh
    requires forall t | t in states[i].threads :: C.Carrying(states[i].threads[t]).None?
    requires tree.Valid() && tree.inserted == C.Given(steps, i)
    ensures skipVisit == treeVisit && skipLen == treeLen == |treeVisit|
    ensures HasBottom(states[i]) && found == Shown(Newest(Linked(states[i]), key))
  {
    hide Takes, Initial, LevelInv, Current, Reduce, Newest, KeysOf;
    ReachableIsWalkable(states, steps, i);
    C.QuietTableHoldsEverything(states, steps, i);
    ghost var chain := states[i].chains[0];
    skipVisit := ForEach(sh, chain);
    treeVisit := tree.ForEach();
    OneListPerSet(skipVisit, treeVisit);
    skipLen := Len(sh, chain);
    treeLen := tree.Len();
    CountKeys(treeVisit);
    ReducedKeys(tree.inserted);
    found := tree.Get(key);
  }
}
