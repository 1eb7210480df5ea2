/** The ordered-map memtable, and what both memtables must agree on. */
module Memtable {
  import opened Keys
  import opened Versions
  import opened Merge
  import opened Sums

  datatype Entry = Entry(seqno: nat, value: Option<Bytes>)

  function ValueLen(value: Option<Bytes>): nat {
    if value.Some? then |value.value| else 0
  }

  /** Key and value bytes of one version. */
  ghost function Footprint(): Version -> nat {
    (v: Version) => |v.key| + ValueLen(v.value)
  }

  function VersionAt(entries: map<Bytes, Entry>, key: Bytes): Version
    requires key in entries
  {
    Version(key, entries[key].seqno, entries[key].value)
  }

  ghost function Held(entries: map<Bytes, Entry>): set<Version> {
    set key | key in entries :: VersionAt(entries, key)
  }

  ghost function KeysOf(s: set<Version>): set<Bytes> {
    set v | v in s :: v.key
  }

  /** The table holds the newest version of every key ever inserted. */
  ghost predicate Current(entries: map<Bytes, Entry>, inserted: set<Version>) {
    Consistent(inserted) && Held(entries) == Reduce(inserted)
  }

  /** Newer than every version of its key inserted so far. */
  ghost predicate Newer(v: Version, inserted: set<Version>) {
    forall w | w in inserted && w.key == v.key :: w.seqno < v.seqno
  }

  lemma HeldAt(entries: map<Bytes, Entry>, inserted: set<Version>, key: Bytes)
    requires Current(entries, inserted)
    ensures key in entries <==> HasKey(inserted, key)
    ensures key in entries ==> Newest(inserted, key) == Some(VersionAt(entries, key))
  {
    if HasKey(inserted, key) {
      var n := Newest(inserted, key).value;
      assert n in Reduce(inserted) && n in Held(entries);
    }
    if key in entries {
      var v := VersionAt(entries, key);
      assert v in Held(entries) && v in Reduce(inserted);
    }
  }

  /** A version no newer than the one held changes nothing. */
  lemma OlderIsDropped(entries: map<Bytes, Entry>, inserted: set<Version>, v: Version)
    requires Current(entries, inserted) && Consistent(inserted + {v})
    requires v.key in entries && entries[v.key].seqno >= v.seqno
    ensures Current(entries, inserted + {v}) && !Newer(v, inserted)
  {
    HeldAt(entries, inserted, v.key);
    var held := VersionAt(entries, v.key);
    assert held in inserted;
    forall w
      ensures w in Reduce(inserted) <==> w in Reduce(inserted + {v})
    {
      if w in Reduce(inserted) && w.key == v.key {
        assert w.seqno >= held.seqno;
      }
      if w in Reduce(inserted + {v}) && w.key == v.key {
        assert w.seqno >= held.seqno;
      }
    }
  }

  /** A version newer than the one held, if any, takes its place. */
  lemma NewerIsKept(entries: map<Bytes, Entry>, inserted: set<Version>, v: Version)
    requires Current(entries, inserted)
    requires v.key in entries ==> entries[v.key].seqno < v.seqno
    ensures Current(entries[v.key := Entry(v.seqno, v.value)], inserted + {v}) && Newer(v, inserted)
    ensures Held(entries[v.key := Entry(v.seqno, v.value)])
            == (Held(entries) - (if v.key in entries then {VersionAt(entries, v.key)} else {})) + {v}
  {
    HeldAt(entries, inserted, v.key);
    var after := entries[v.key := Entry(v.seqno, v.value)];
    assert Newer(v, inserted) by {
      forall w | w in inserted && w.key == v.key
        ensures w.seqno < v.seqno
      {
        assert HasKey(inserted, v.key);
        assert w.seqno <= VersionAt(entries, v.key).seqno;
      }
    }
    HeldAfter(entries, v);
    ReduceAfter(inserted, v);
    forall w | w in Held(entries)
      ensures w.key == v.key <==> v.key in entries && w == VersionAt(entries, v.key)
    {
    }
  }

  lemma HeldAfter(entries: map<Bytes, Entry>, v: Version)
    ensures Held(entries[v.key := Entry(v.seqno, v.value)]) == (set w | w in Held(entries) && w.key != v.key) + {v}
  {
    var after := entries[v.key := Entry(v.seqno, v.value)];
    forall w
      ensures w in Held(after) <==> (w in Held(entries) && w.key != v.key) || w == v
    {
      if w in Held(after) {
        var k :| k in after && VersionAt(after, k) == w;
        assert k != v.key ==> VersionAt(entries, k) == w;
      }
      if w in Held(entries) && w.key != v.key {
        assert VersionAt(after, w.key) == w;
      }
      assert VersionAt(after, v.key) == v;
    }
  }

  lemma ReduceAfter(inserted: set<Version>, v: Version)
    requires Newer(v, inserted)
    ensures Reduce(inserted + {v}) == (set w | w in Reduce(inserted) && w.key != v.key) + {v}
  {
    var all := inserted + {v};
    forall w
      ensures w in Reduce(all) <==> (w in Reduce(inserted) && w.key != v.key) || w == v
    {
      if w in Reduce(all) && w.key == v.key {
        assert w.seqno >= v.seqno;
      }
    }
  }

  /** A map under one lock: an insert keeps whichever version is newer, in whatever order they arrive. */
  class BTree {
    var entries: map<Bytes, Entry>
    var bytes: nat
    ghost var inserted: set<Version>

    ghost predicate Valid()
      reads this
    {
      Current(entries, inserted) && bytes == Sum(Held(entries), Footprint())
    }

    constructor ()
      ensures Valid() && inserted == {}
    {
      entries, bytes, inserted := map[], 0, {};
      new;
      assert Held(entries) == {} == Reduce(inserted);
    }

    /** Applies a mutation, and reports whether it is newer than every one of its key so far. */
    method Insert(v: Version) returns (newest: bool)
      requires Valid() && Consistent(inserted + {v})
      modifies this
      ensures Valid() && inserted == old(inserted) + {v}
      ensures newest <==> Newer(v, old(inserted))
    {
      hide Current, Newer, Consistent, Sum;
      inserted := inserted + {v};
      if v.key in entries {
        var entry := entries[v.key];
        if entry.seqno >= v.seqno {
          OlderIsDropped(entries, old(inserted), v);
          return false;
        }
        NewerIsKept(entries, old(inserted), v);
        SwapSum(entries, old(inserted), v);
        bytes := bytes - ValueLen(entry.value);
        bytes := bytes + ValueLen(v.value);
        entries := entries[v.key := Entry(v.seqno, v.value)];
        return true;
      }
      NewerIsKept(entries, old(inserted), v);
      AddSum(entries, old(inserted), v);
      bytes := bytes + |v.key| + ValueLen(v.value);
      entries := entries[v.key := Entry(v.seqno, v.value)];
      return true;
    }

    method Get(key: Bytes) returns (found: Lookup)
      requires Valid()
      ensures found == Shown(Newest(inserted, key))
    {
      HeldAt(entries, inserted, key);
      if key !in entries {
        return Missing;
      }
      var entry := entries[key];
      return if entry.value.Some? then Found(entry.value.value) else Deleted;
    }

    method Len() returns (n: nat)
      requires Valid()
      ensures n == |KeysOf(inserted)|
    {
      KeysHeld(entries, inserted);
      n := |entries|;
    }

    /** Every key once, in increasing order, in its newest version. */
    method ForEach() returns (visited: seq<Version>)
      requires Valid()
      ensures Ascending(visited) && Members(visited) == Reduce(inserted)
    {
      visited := [];
      var left := entries.Keys;
      while left != {}
        invariant left <= entries.Keys && Ascending(visited)
        invariant Members(visited) == set key | key in entries && key !in left :: VersionAt(entries, key)
        invariant forall v, key | v in visited && key in left :: Less(v.key, key)
        decreases |left|
      {
        var key := Smallest(left);
        VisitOne(visited, left, key, VersionAt(entries, key));
        visited := visited + [VersionAt(entries, key)];
        left := left - {key};
      }
    }
  }

  lemma VisitOne(visited: seq<Version>, left: set<Bytes>, key: Bytes, v: Version)
    requires Ascending(visited) && key in left && v.key == key && forall k | k in left :: !Less(k, key)
    requires forall w, k | w in visited && k in left :: Less(w.key, k)
    ensures Ascending(visited + [v]) && Members(visited + [v]) == Members(visited) + {v}
    ensures forall w, k | w in visited + [v] && k in left - {key} :: Less(w.key, k)
  {
    KeyOrder();
    forall i, j | 0 <= i < j < |visited + [v]|
      ensures Less((visited + [v])[i].key, (visited + [v])[j].key)
    {
      assert (visited + [v])[i] in visited;
    }
  }

  method Smallest(keys: set<Bytes>) returns (key: Bytes)
    requires keys != {}
    ensures key in keys && forall k | k in keys :: !Less(k, key)
  {
    key :| key in keys;
    var left := keys - {key};
    KeyOrder();
    while left != {}
      invariant key in keys && left <= keys && forall k | k in keys && k !in left :: !Less(k, key)
    {
      var k :| k in left;
      left := left - {k};
      if Less(k, key) {
        key := k;
      }
    }
  }

  lemma SwapSum(entries: map<Bytes, Entry>, inserted: set<Version>, v: Version)
    requires Current(entries, inserted) && v.key in entries && entries[v.key].seqno < v.seqno
    ensures Sum(Held(entries[v.key := Entry(v.seqno, v.value)]), Footprint()) + ValueLen(entries[v.key].value)
            == Sum(Held(entries), Footprint()) + ValueLen(v.value)
    ensures ValueLen(entries[v.key].value) <= Sum(Held(entries), Footprint())
  {
    hide Current, Sum, Newer;
    NewerIsKept(entries, inserted, v);
    var held, was := Held(entries), VersionAt(entries, v.key);
    var after := (held - {was}) + {v};
    SumWithout(held, Footprint(), was);
    NotHeldYet(entries, v);
    SumWithout(after, Footprint(), v);
    assert after - {v} == held - {was};
  }

  lemma AddSum(entries: map<Bytes, Entry>, inserted: set<Version>, v: Version)
    requires Current(entries, inserted) && v.key !in entries
    ensures Sum(Held(entries[v.key := Entry(v.seqno, v.value)]), Footprint())
            == Sum(Held(entries), Footprint()) + |v.key| + ValueLen(v.value)
  {
    hide Current, Sum, Newer;
    NewerIsKept(entries, inserted, v);
    NotHeldYet(entries, v);
    var after := (Held(entries) - {}) + {v};
    assert Held(entries[v.key := Entry(v.seqno, v.value)]) == after;
    SumWithout(after, Footprint(), v);
    assert after - {v} == Held(entries);
  }

  lemma NotHeldYet(entries: map<Bytes, Entry>, v: Version)
    requires v.key in entries ==> entries[v.key].seqno < v.seqno
    ensures v !in Held(entries)
  {
  }

  lemma KeysHeld(entries: map<Bytes, Entry>, inserted: set<Version>)
    requires Current(entries, inserted)
    ensures entries.Keys == KeysOf(inserted) && |entries| == |KeysOf(inserted)|
  {
    forall key
      ensures key in entries <==> key in KeysOf(inserted)
    {
      HeldAt(entries, inserted, key);
    }
    assert |entries.Keys| == |entries|;
  }

  // ---- Order of arrival does not matter, and the two tables agree ----

  /** One key-sorted list per set of versions. */
  lemma {:induction false} OneListPerSet(a: seq<Version>, b: seq<Version>)
    requires Ascending(a) && Ascending(b) && Members(a) == Members(b)
    ensures a == b
    decreases |a|
  {
    BothOrNeither(a, b);
    if a != [] {
      FirstIsSmallest(a, b);
      FirstIsSmallest(b, a);
      KeyOrder();
      assert a[0].key == b[0].key;
      SameFirst(a, b);
      RestMembers(a);
      RestMembers(b);
      OneListPerSet(a[1..], b[1..]);
      assert a == [a[0]] + a[1..] && b == [b[0]] + b[1..];
    }
  }

  lemma BothOrNeither(a: seq<Version>, b: seq<Version>)
    requires Members(a) == Members(b)
    ensures a == [] <==> b == []
  {
    assert forall v :: v in a <==> v in Members(a);
    assert forall v :: v in b <==> v in Members(b);
    if a != [] {
      assert a[0] in Members(b);
    }
    if b != [] {
      assert b[0] in Members(a);
    }
  }

  lemma FirstIsSmallest(a: seq<Version>, b: seq<Version>)
    requires Ascending(a) && a != [] && b != [] && Members(a) == Members(b)
    ensures !Less(b[0].key, a[0].key)
  {
    assert b[0] in Members(a);
    var i :| 0 <= i < |a| && a[i] == b[0];
    KeyOrder();
    assert i > 0 ==> Less(a[0].key, a[i].key);
  }

  lemma SameFirst(a: seq<Version>, b: seq<Version>)
    requires Ascending(a) && a != [] && b != [] && Members(a) == Members(b) && a[0].key == b[0].key
    ensures a[0] == b[0]
  {
    assert b[0] in Members(a);
    var i :| 0 <= i < |a| && a[i] == b[0];
    KeysDiffer(a, 0, i);
  }

  lemma RestMembers(a: seq<Version>)
    requires Ascending(a) && a != []
    ensures Ascending(a[1..]) && Members(a[1..]) == Members(a) - {a[0]}
  {
    assert a == [a[0]] + a[1..];
    TailAscends(a[0], a[1..]);
    forall i | 1 <= i < |a|
      ensures a[i] != a[0]
    {
      KeysDiffer(a, 0, i);
    }
  }

  /** Two tables that took the same mutations hold the same entries, whatever the order was. */
  lemma SameMutationsSameTable(a: map<Bytes, Entry>, b: map<Bytes, Entry>, inserted: set<Version>)
    requires Current(a, inserted) && Current(b, inserted)
    ensures a == b
  {
    forall key
      ensures key in a <==> key in b
      ensures key in a && key in b ==> a[key] == b[key]
    {
      HeldAt(a, inserted, key);
      HeldAt(b, inserted, key);
    }
  }
}
