/** The k-way merge: several key-sorted sources as one stream holding the newest version of each key. */
module Merge {
  import opened Keys
  import opened Versions

  /** What pulling from a source gives while there is something: an entry, or an error reading one. */
  datatype Item = Good(v: Version) | Unreadable

  datatype Pulled = Merged(v: Version) | Failed | Finished

  ghost predicate Ascending(entries: seq<Version>) {
    forall i, j | 0 <= i < j < |entries| :: Less(entries[i].key, entries[j].key)
  }

  function Members(entries: seq<Version>): set<Version> {
    set v | v in entries
  }

  lemma KeysDiffer(entries: seq<Version>, i: nat, j: nat)
    requires Ascending(entries) && i < |entries| && j < |entries|
    ensures entries[i].key == entries[j].key ==> i == j
  {
    KeyOrder();
    assert i < j ==> Less(entries[i].key, entries[j].key);
    assert j < i ==> Less(entries[j].key, entries[i].key);
  }

  /** What a source will deliver before its first error. */
  function Readable(source: seq<Item>): (r: seq<Version>)
    ensures |r| <= |source|
  {
    if source == [] || source[0].Unreadable? then [] else [source[0].v] + Readable(source[1..])
  }

  /** One number and key, one mutation. */
  ghost predicate Consistent(s: set<Version>) {
    forall v, w | v in s && w in s && v.key == w.key && v.seqno == w.seqno :: v == w
  }

  /** The order the heap pops in: smallest key, then newest version, then first source. */
  predicate Ahead(a: Version, i: nat, b: Version, j: nat) {
    Less(a.key, b.key) || (a.key == b.key && (a.seqno > b.seqno || (a.seqno == b.seqno && i < j)))
  }

  /** The entries still to come: the heads in the heap and what is left of each source. */
  ghost function Coming(sources: seq<seq<Item>>, heap: map<nat, Version>): set<Version> {
    (set i | i in heap :: heap[i]) + (set i, v | 0 <= i < |sources| && v in Readable(sources[i]) :: v)
  }

  /** A head sorts before the rest of its source. */
  ghost predicate Heaped(sources: seq<seq<Item>>, heap: map<nat, Version>) {
    forall i | i in heap :: i < |sources| && Ascending([heap[i]] + Readable(sources[i]))
  }

  /** Only a source that has nothing to deliver lacks a head. */
  ghost predicate Primed(sources: seq<seq<Item>>, heap: map<nat, Version>) {
    Heaped(sources, heap) && forall i | 0 <= i < |sources| && i !in heap :: Readable(sources[i]) == []
  }

  /** What is left once everything of key `k` is gone. */
  ghost function Without(s: set<Version>, k: Bytes): set<Version> {
    set v | v in s && v.key != k
  }

  /** The source's next entry became its head, or it has none. */
  ghost predicate Pulls(sources: seq<seq<Item>>, heap: map<nat, Version>, i: nat, sources': seq<seq<Item>>,
                        heap': map<nat, Version>)
    requires i < |sources| && i !in heap
  {
    && |sources'| == |sources| && (forall j | 0 <= j < |sources| && j != i :: sources'[j] == sources[j])
    && if Readable(sources[i]) == [] then heap' == heap
       else i in heap' && heap' == heap[i := heap'[i]] && Readable(sources[i]) == [heap'[i]] + Readable(sources'[i])
  }

  lemma PullKeepsHeap(sources: seq<seq<Item>>, heap: map<nat, Version>, i: nat, sources': seq<seq<Item>>,
                      heap': map<nat, Version>)
    requires i < |sources| && i !in heap && Heaped(sources, heap) && Pulls(sources, heap, i, sources', heap')
    requires Ascending(Readable(sources[i]))
    ensures Heaped(sources', heap')
  {
  }

  /** Popping a head and pulling the next one takes exactly that head out of what is to come. */
  lemma PopAndPull(sources: seq<seq<Item>>, heap: map<nat, Version>, i: nat, sources': seq<seq<Item>>,
                   heap': map<nat, Version>)
    requires i in heap && i < |sources| && Pulls(sources, heap - {i}, i, sources', heap')
    requires i !in heap' ==> Readable(sources'[i]) == []
    ensures Coming(sources, heap) == Coming(sources', heap') + {heap[i]}
  {
    var before, after := Coming(sources, heap), Coming(sources', heap') + {heap[i]};
    forall v | v in before
      ensures v in after
    {
      if v != heap[i] {
        StillComing(sources, heap, i, sources', heap', v);
      }
    }
    forall v | v in after
      ensures v in before
    {
      if v != heap[i] {
        WasComing(sources, heap, i, sources', heap', v);
      }
    }
  }

  lemma StillComing(sources: seq<seq<Item>>, heap: map<nat, Version>, i: nat, sources': seq<seq<Item>>,
                    heap': map<nat, Version>, v: Version)
    requires i in heap && i < |sources| && Pulls(sources, heap - {i}, i, sources', heap')
    requires v in Coming(sources, heap) && v != heap[i]
    ensures v in Coming(sources', heap')
  {
    if j :| j in heap && heap[j] == v {
      assert j in heap' && heap'[j] == v;
    } else {
      var j :| 0 <= j < |sources| && v in Readable(sources[j]);
      if j == i {
        assert v == heap'[i] || v in Readable(sources'[i]);
      } else {
        assert v in Readable(sources'[j]);
      }
    }
  }

  lemma WasComing(sources: seq<seq<Item>>, heap: map<nat, Version>, i: nat, sources': seq<seq<Item>>,
                  heap': map<nat, Version>, v: Version)
    requires i in heap && i < |sources| && Pulls(sources, heap - {i}, i, sources', heap')
    requires i !in heap' ==> Readable(sources'[i]) == []
    requires v in Coming(sources', heap')
    ensures v in Coming(sources, heap)
  {
    if j :| j in heap' && heap'[j] == v {
      if j == i {
        assert v in Readable(sources[i]);
      } else {
        assert heap[j] == v;
      }
    } else {
      var j :| 0 <= j < |sources'| && v in Readable(sources'[j]);
      assert v in Readable(sources[j]);
    }
  }

  /** Nothing to come sorts before the head popped, and whatever shares its key is a head itself, no newer. */
  lemma PoppedIsFirst(sources: seq<seq<Item>>, heap: map<nat, Version>, i: nat, v: Version)
    requires Primed(sources, heap) && i in heap && (forall j | j in heap && j != i :: Ahead(heap[i], i, heap[j], j))
    requires v in Coming(sources, heap)
    ensures !Less(v.key, heap[i].key) && (v.key == heap[i].key ==> v.seqno <= heap[i].seqno)
    ensures v.key == heap[i].key ==> exists j :: j in heap && heap[j] == v
  {
    KeyOrder();
    if j :| j in heap && heap[j] == v {
    } else {
      var j :| 0 <= j < |sources| && v in Readable(sources[j]);
      RestIsAfter(sources, heap, j, v);
    }
  }

  lemma RestIsAfter(sources: seq<seq<Item>>, heap: map<nat, Version>, j: nat, v: Version)
    requires Primed(sources, heap) && j < |sources| && v in Readable(sources[j])
    ensures j in heap && Less(heap[j].key, v.key)
  {
    assert j in heap;
    var all := [heap[j]] + Readable(sources[j]);
    var k :| 0 <= k < |Readable(sources[j])| && Readable(sources[j])[k] == v;
    assert all[k + 1] == v && all[0] == heap[j];
  }

  ghost predicate Clean(sources: seq<seq<Item>>) {
    forall i | 0 <= i < |sources| :: Unreadable !in sources[i]
  }

  class Merger {
    var sources: seq<seq<Item>>
    var heap: map<nat, Version>
    var failure: bool
    ghost var stopped: bool

    /** Until an error stops it, every source that can deliver has its next entry in the heap. */
    ghost predicate Valid()
      reads this
    {
      && (stopped ==> heap == map[] && !failure)
      && (!stopped && !failure ==> Primed(sources, heap))
    }

    ghost function Left(): set<Version>
      reads this
    {
      if stopped then {} else Coming(sources, heap)
    }

    /** Refills the heap from one source. */
    method Pull(i: nat)
      requires i < |sources| && i !in heap
      modifies this
      ensures stopped == old(stopped) && (old(failure) ==> failure)
      ensures Pulls(old(sources), old(heap), i, sources, heap)
      ensures !failure && i !in heap ==> Readable(sources[i]) == []
      ensures Clean(old(sources)) ==> Clean(sources) && failure == old(failure)
    {
      var source := sources[i];
      if source != [] {
        sources := sources[i := source[1..]];
        if source[0].Good? {
          heap := heap[i := source[0].v];
        } else {
          failure := true;
        }
      }
    }

    constructor (sources: seq<seq<Item>>)
      requires forall i | 0 <= i < |sources| :: Ascending(Readable(sources[i]))
      ensures Valid() && !stopped
      ensures !failure ==> Left() == Coming(sources, map[])
      ensures Clean(sources) ==> !failure && Clean(this.sources)
    {
      this.sources := sources;
      heap := map[];
      failure := false;
      stopped := false;
      new;
      for i := 0 to |sources|
        invariant !stopped && |this.sources| == |sources|
        invariant forall j | i <= j < |sources| :: this.sources[j] == sources[j] && j !in heap
        invariant Heaped(this.sources, heap)
        invariant Clean(sources) ==> !failure && Clean(this.sources)
        invariant !failure ==> forall j | 0 <= j < i && j !in heap :: Readable(this.sources[j]) == []
        invariant !failure ==> Coming(this.sources, heap) == Coming(sources, map[])
      {
        ghost var sources0, heap0 := this.sources, heap;
        Pull(i);
        PullKeepsHeap(sources0, heap0, i, this.sources, heap);
        if !failure {
          FirstPull(sources0, heap0, i, this.sources, heap);
        }
      }
    }

    /** Pops a head and puts its source's next entry in its place. */
    method Replace(i: nat)
      requires i in heap && Heaped(sources, heap) && !stopped && (!failure ==> Primed(sources, heap))
      modifies this
      ensures !stopped && (old(failure) ==> failure)
      ensures Heaped(sources, heap) && (!failure ==> Primed(sources, heap))
      ensures forall j | j in heap && j != i :: j in old(heap) && heap[j] == old(heap)[j]
      ensures forall j | j in old(heap) && j != i :: j in heap
      ensures i in heap ==> Less(old(heap)[i].key, heap[i].key)
      ensures !failure ==> old(Left()) == Left() + {old(heap)[i]}
      ensures Clean(old(sources)) ==> Clean(sources) && failure == old(failure)
    {
      ghost var sources0, heap0 := sources, heap;
      TailAscends(heap[i], Readable(sources[i]));
      heap := heap - {i};
      Pull(i);
      PullKeepsHeap(sources0, heap0 - {i}, i, sources, heap);
      if !failure {
        PopAndPull(sources0, heap0, i, sources, heap);
      }
    }

    /** The next entry: the newest version of the smallest key left, with every older version of it dropped. */
    method Next() returns (r: Pulled)
      requires Valid()
      modifies this
      ensures Valid()
      ensures r.Failed? <==> old(failure)
      ensures r.Failed? ==> stopped
      ensures r.Finished? ==> old(Left()) == {} == Left() && stopped == old(stopped) && !failure
      ensures r.Merged? ==> !old(stopped) && !stopped && r.v in old(Left()) && NewestIn(r.v, old(Left()))
      ensures r.Merged? ==> forall w | w in old(Left()) :: !Less(w.key, r.v.key)
      ensures r.Merged? && !failure ==> Left() == Without(old(Left()), r.v.key)
      ensures Clean(old(sources)) && !old(failure) ==> Clean(sources) && !failure
    {
      if failure {
        failure := false;
        heap := map[];
        stopped := true;
        return Failed;
      }
      if heap == map[] {
        EmptyHeap(sources, heap, stopped);
        return Finished;
      }
      var i := Greatest(heap);
      var head := heap[i];
      ghost var all := Left();
      forall v | v in all
        ensures !Less(v.key, head.key) && (v.key == head.key ==> v.seqno <= head.seqno)
      {
        PoppedIsFirst(sources, heap, i, v);
      }
      ghost var heap0 := heap;
      Replace(i);
      NoneBefore(heap0, i, heap);
      DropStale(head.key);
      WithoutAgain(all, head, Left());
      return Merged(head);
    }

    /** Skips what the heap still holds of this key. */
    method DropStale(key: Bytes)
      requires Heaped(sources, heap) && !stopped && (!failure ==> Primed(sources, heap))
      requires forall j | j in heap :: !Less(heap[j].key, key)
      modifies this
      ensures Heaped(sources, heap) && !stopped && (!failure ==> Primed(sources, heap)) && (old(failure) ==> failure)
      ensures !failure ==> Left() == Without(old(Left()), key)
      ensures Clean(old(sources)) ==> Clean(sources) && failure == old(failure)
    {
      hide Less, Ahead, Ascending, Coming;
      var more := heap != map[];
      while more
        invariant Heaped(sources, heap) && !stopped && (!failure ==> Primed(sources, heap))
                  && (old(failure) ==> failure)
        invariant forall j | j in heap :: !Less(heap[j].key, key)
        invariant !failure ==> Without(Left(), key) == Without(old(Left()), key)
        invariant Clean(old(sources)) ==> Clean(sources) && failure == old(failure)
        invariant !more ==> forall j | j in heap :: Less(key, heap[j].key)
        invariant more ==> heap != map[]
        decreases more, |SameKey(heap, key)|
      {
        var j := Greatest(heap);
        if heap[j].key == key {
          ghost var heap0 := heap;
          Replace(j);
          FewerLeft(heap0, j, heap, key);
          more := heap != map[];
        } else {
          GreatestIsPast(heap, j, key);
          more := false;
        }
      }
      if !failure {
        AllPast(sources, heap, key);
      }
    }
  }

  ghost function SameKey(heap: map<nat, Version>, key: Bytes): set<nat> {
    set j | j in heap && heap[j].key == key
  }

  lemma FewerLeft(heap: map<nat, Version>, i: nat, heap': map<nat, Version>, key: Bytes)
    requires i in heap && heap[i].key == key
    requires forall j | j in heap' && j != i :: j in heap && heap'[j] == heap[j]
    requires i in heap' ==> Less(key, heap'[i].key)
    ensures |SameKey(heap', key)| < |SameKey(heap, key)|
    ensures i in heap' ==> !Less(heap'[i].key, key)
  {
    KeyOrder();
    assert SameKey(heap', key) <= SameKey(heap, key) - {i};
    Smaller(SameKey(heap', key), SameKey(heap, key) - {i});
  }

  lemma {:induction false} Smaller<T>(a: set<T>, b: set<T>)
    requires a <= b
    ensures |a| <= |b|
    decreases |a|
  {
    if a != {} {
      var x :| x in a;
      Smaller(a - {x}, b - {x});
    }
  }

  lemma NoneBefore(heap: map<nat, Version>, i: nat, heap': map<nat, Version>)
    requires i in heap && (forall j | j in heap && j != i :: Ahead(heap[i], i, heap[j], j))
    requires forall j | j in heap' && j != i :: j in heap && heap'[j] == heap[j]
    requires i in heap' ==> Less(heap[i].key, heap'[i].key)
    ensures forall j | j in heap' :: !Less(heap'[j].key, heap[i].key)
  {
    KeyOrder();
  }

  lemma GreatestIsPast(heap: map<nat, Version>, i: nat, key: Bytes)
    requires i in heap && (forall j | j in heap && j != i :: Ahead(heap[i], i, heap[j], j))
    requires !Less(heap[i].key, key) && heap[i].key != key
    ensures forall j | j in heap :: Less(key, heap[j].key)
  {
    KeyOrder();
  }

  lemma AllPast(sources: seq<seq<Item>>, heap: map<nat, Version>, key: Bytes)
    requires Primed(sources, heap) && forall j | j in heap :: Less(key, heap[j].key)
    ensures Without(Coming(sources, heap), key) == Coming(sources, heap)
  {
    KeyOrder();
    forall v | v in Coming(sources, heap)
      ensures v.key != key
    {
      if j :| j in heap && heap[j] == v {
      } else {
        var j :| 0 <= j < |sources| && v in Readable(sources[j]);
        RestIsAfter(sources, heap, j, v);
      }
    }
  }

  lemma WithoutAgain(all: set<Version>, head: Version, left: set<Version>)
    ensures forall before: set<Version> | all == before + {head}
            && left == Without(before, head.key) :: left == Without(all, head.key)
  {
  }

  lemma EmptyHeap(sources: seq<seq<Item>>, heap: map<nat, Version>, stopped: bool)
    requires heap == map[]
    ensures !stopped && Primed(sources, heap) ==> Coming(sources, heap) == {}
  {
  }

  lemma TailAscends(head: Version, rest: seq<Version>)
    requires Ascending([head] + rest)
    ensures Ascending(rest)
    ensures rest != [] ==> Less(head.key, rest[0].key)
  {
    assert forall i | 0 <= i < |rest| :: rest[i] == ([head] + rest)[i + 1];
    assert rest != [] ==> ([head] + rest)[0] == head && ([head] + rest)[1] == rest[0];
  }

  /** The head a binary heap would pop. */
  method Greatest(heap: map<nat, Version>) returns (i: nat)
    requires heap != map[]
    ensures i in heap && forall j | j in heap && j != i :: Ahead(heap[i], i, heap[j], j)
  {
    var rest := heap.Keys;
    i :| i in rest;
    rest := rest - {i};
    while rest != {}
      invariant i in heap && i !in rest && rest <= heap.Keys
      invariant forall j | j in heap && j != i && j !in rest :: Ahead(heap[i], i, heap[j], j)
    {
      var k :| k in rest;
      rest := rest - {k};
      AheadIsTotal(heap[i], i, heap[k], k);
      if Ahead(heap[k], k, heap[i], i) {
        forall j | j in heap && j != k && j !in rest
          ensures Ahead(heap[k], k, heap[j], j)
        {
          if j != i {
            AheadChains(heap[k], k, heap[i], i, heap[j], j);
          }
        }
        i := k;
      }
    }
  }

  lemma AheadIsTotal(a: Version, i: nat, b: Version, j: nat)
    requires i != j
    ensures Ahead(a, i, b, j) || Ahead(b, j, a, i)
  {
    KeyOrder();
  }

  lemma AheadChains(a: Version, i: nat, b: Version, j: nat, c: Version, k: nat)
    requires Ahead(a, i, b, j) && Ahead(b, j, c, k)
    ensures Ahead(a, i, c, k)
  {
    KeyOrder();
  }

  lemma FirstPull(sources: seq<seq<Item>>, heap: map<nat, Version>, i: nat, sources': seq<seq<Item>>,
                  heap': map<nat, Version>)
    requires i < |sources| && i !in heap && Pulls(sources, heap, i, sources', heap')
    requires i !in heap' ==> Readable(sources'[i]) == []
    ensures Coming(sources', heap') == Coming(sources, heap)
  {
    var before, after := Coming(sources, heap), Coming(sources', heap');
    forall v | v in before
      ensures v in after
    {
      if j :| j in heap && heap[j] == v {
        assert heap'[j] == v;
      } else {
        var j :| 0 <= j < |sources| && v in Readable(sources[j]);
        assert j != i ==> v in Readable(sources'[j]);
      }
    }
    forall v | v in after
      ensures v in before
    {
      if j :| j in heap' && heap'[j] == v {
        assert j == i ==> v in Readable(sources[i]);
      } else {
        var j :| 0 <= j < |sources'| && v in Readable(sources'[j]);
        assert v in Readable(sources[j]);
      }
    }
  }

  // ---- The whole stream ----

  /** An initial part of the merged stream: newest versions in increasing order, no key left out. */
  ghost predicate InitialPart(all: set<Version>, merged: seq<Version>) {
    && Ascending(merged) && Members(merged) <= Reduce(all)
    && forall v, m | v in all && m in merged && !Less(m.key, v.key) :: HasKey(Members(merged), v.key)
  }

  /** What is left is exactly what has a key not merged yet, and every such key is past the merged ones. */
  ghost predicate Streamed(all: set<Version>, merged: seq<Version>, left: set<Version>) {
    && InitialPart(all, merged)
    && (forall v :: v in left <==> v in all && !HasKey(Members(merged), v.key))
    && (forall v, m | v in left && m in merged :: Less(m.key, v.key))
  }

  lemma NothingMerged(all: set<Version>)
    ensures Streamed(all, [], all)
  {
  }

  lemma KeysWith(merged: seq<Version>, v: Version)
    ensures Members(merged + [v]) == Members(merged) + {v}
    ensures forall k :: HasKey(Members(merged + [v]), k) <==> HasKey(Members(merged), k) || k == v.key
  {
    assert v in Members(merged + [v]);
  }

  lemma OnePart(all: set<Version>, merged: seq<Version>, left: set<Version>, v: Version)
    requires Streamed(all, merged, left) && v in left && NewestIn(v, left)
             && forall w | w in left :: !Less(w.key, v.key)
    ensures InitialPart(all, merged + [v])
  {
    KeyOrder();
    var more := merged + [v];
    KeysWith(merged, v);
    forall w | w in all && w.key == v.key
      ensures w.seqno <= v.seqno
    {
      assert w in left;
    }
    assert v in Reduce(all);
    forall i, j | 0 <= i < j < |more|
      ensures Less(more[i].key, more[j].key)
    {
      assert more[i] in merged;
    }
    forall w, m | w in all && m in more && !Less(m.key, w.key)
      ensures HasKey(Members(more), w.key)
    {
      if w in left {
        assert !Less(w.key, v.key);
        assert m in merged ==> Less(m.key, w.key);
      }
    }
  }

  lemma OneMoreMerged(all: set<Version>, merged: seq<Version>, left: set<Version>, v: Version)
    requires Streamed(all, merged, left) && v in left && NewestIn(v, left)
             && forall w | w in left :: !Less(w.key, v.key)
    ensures Streamed(all, merged + [v], Without(left, v.key)) && |Without(left, v.key)| < |left|
  {
    OnePart(all, merged, left, v);
    KeysWith(merged, v);
    PastKeys(merged, left, v);
    FewerLeftOver(left, v);
    hide InitialPart, NewestIn, HasKey, Members, Less;
  }

  lemma FewerLeftOver(left: set<Version>, v: Version)
    requires v in left
    ensures |Without(left, v.key)| < |left|
  {
    assert Without(left, v.key) <= left - {v};
    Smaller(Without(left, v.key), left - {v});
  }

  lemma PastKeys(merged: seq<Version>, left: set<Version>, v: Version)
    requires (forall w, m | w in left && m in merged :: Less(m.key, w.key))
             && forall w | w in left :: !Less(w.key, v.key)
    ensures forall w, m | w in Without(left, v.key) && m in merged + [v] :: Less(m.key, w.key)
  {
    KeyOrder();
  }

  lemma AllMerged(all: set<Version>, merged: seq<Version>)
    requires Streamed(all, merged, {}) && Consistent(all)
    ensures Members(merged) == Reduce(all)
  {
    forall v | v in Reduce(all)
      ensures v in merged
    {
      assert HasKey(Members(merged), v.key);
      var m :| m in Members(merged) && m.key == v.key;
      assert m in Reduce(all) && m.seqno == v.seqno;
    }
  }

  /** Every key of the sources once, in increasing order, in its newest version; an error cuts the stream short. */
  method Collect(sources: seq<seq<Item>>) returns (merged: seq<Version>, ok: bool)
    requires forall i | 0 <= i < |sources| :: Ascending(Readable(sources[i]))
    requires Consistent(Coming(sources, map[]))
    ensures InitialPart(Coming(sources, map[]), merged)
    ensures ok ==> Members(merged) == Reduce(Coming(sources, map[]))
    ensures Clean(sources) ==> ok
  {
    var merger := new Merger(sources);
    ghost var all := Coming(sources, map[]);
    merged := [];
    NothingMerged(all);
    ok := true;
    var more := true;
    while more
      invariant merger.Valid() && fresh(merger) && (more ==> !merger.stopped && ok)
      invariant InitialPart(all, merged)
      invariant more && !merger.failure ==> Streamed(all, merged, merger.Left())
      invariant !more && ok ==> Streamed(all, merged, {})
      invariant Clean(sources) ==> Clean(merger.sources) && !merger.failure && ok
      decreases more, !merger.failure, |merger.Left()|
    {
      ghost var left := merger.Left();
      var r := merger.Next();
      if r.Merged? {
        OneMoreMerged(all, merged, left, r.v);
        merged := merged + [r.v];
      } else {
        ok := r.Finished?;
        more := false;
      }
    }
    if ok {
      AllMerged(all, merged);
    }
  }
}
