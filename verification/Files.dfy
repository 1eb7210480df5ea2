/** What the manifest records: the live sorted files, their levels and their key ranges. */
module Files {
  import opened Keys
  import opened Versions

  /** A sorted file with what the manifest knows about it. Its entries are the versions it holds. */
  datatype File = File(number: nat, level: nat, minKey: Bytes, maxKey: Bytes, bytes: nat, content: set<Version>) {
    predicate Covers(key: Bytes) {
      AtMost(minKey, key) && AtMost(key, maxKey)
    }

    predicate Overlaps(min: Bytes, max: Bytes) {
      AtMost(minKey, max) && AtMost(min, maxKey)
    }

    /** The recorded range is the exact range of the entries, of which there is at least one, one per key. */
    ghost predicate WellFormed() {
      && HasKey(content, minKey) && HasKey(content, maxKey)
      && (forall v | v in content :: Covers(v.key))
      && (forall v, w | v in content && w in content && v.key == w.key :: v == w)
    }
  }

  /** The complete state of a store, as the manifest holds it. */
  datatype Snapshot = Snapshot(files: seq<File>, lastSeq: nat, nextNumber: nat)

  function AtLevel(files: seq<File>, level: nat): (r: seq<File>)
    ensures forall f :: f in r <==> f in files && f.level == level
    ensures |r| <= |files|
  {
    if files == [] then []
    else (if files[0].level == level then [files[0]] else []) + AtLevel(files[1..], level)
  }

  function DeepestLevel(files: seq<File>): (r: nat)
    ensures forall f | f in files :: f.level <= r
    ensures files != [] ==> exists f :: f in files && f.level == r
    ensures files == [] ==> r == 0
  {
    if files == [] then 0
    else
      var r := DeepestLevel(files[1..]);
      if files[0].level > r || |files| == 1 then files[0].level else r
  }

  function TotalBytes(files: seq<File>): nat {
    if files == [] then 0 else files[0].bytes + TotalBytes(files[1..])
  }

  function BytesAt(files: seq<File>, level: nat): nat {
    TotalBytes(AtLevel(files, level))
  }

  /** The files left once those numbered in `removed` are dropped. */
  function Retain(files: seq<File>, removed: seq<nat>): (r: seq<File>)
    ensures forall f :: f in r <==> f in files && f.number !in removed
    ensures |r| <= |files|
  {
    if files == [] then []
    else (if files[0].number !in removed then [files[0]] else []) + Retain(files[1..], removed)
  }

  function Numbers(files: seq<File>): (r: seq<nat>)
    ensures |r| == |files|
    ensures forall i | 0 <= i < |files| :: r[i] == files[i].number
  {
    seq(|files|, i requires 0 <= i < |files| => files[i].number)
  }

  /** Every version any of the files holds. */
  ghost function Contents(files: seq<File>): set<Version> {
    set f, v | f in files && v in f.content :: v
  }

  ghost predicate UniqueNumbers(files: seq<File>) {
    forall i, j | 0 <= i < j < |files| :: files[i].number != files[j].number
  }

  ghost predicate Apart(f: File, g: File) {
    Less(f.maxKey, g.minKey) || Less(g.maxKey, f.minKey)
  }

  /** A lookup consults f before g: shallower levels first, and level 0 newest first. */
  ghost predicate SearchedBefore(f: File, g: File) {
    f.level < g.level || (f.level == 0 && g.level == 0 && f.number > g.number)
  }

  /** No version in f is older than a version of the same key in g. */
  ghost predicate Shadows(f: File, g: File) {
    forall v, w | v in f.content && w in g.content && v.key == w.key :: w.seqno <= v.seqno
  }

  /** What every reachable file set keeps: exact ranges, disjoint deeper levels, and recency along the search order. */
  ghost predicate Layout(files: seq<File>) {
    && UniqueNumbers(files)
    && (forall f | f in files :: f.WellFormed())
    && (forall f, g | f in files && g in files && f != g && f.level == g.level && f.level > 0 :: Apart(f, g))
    && (forall f, g | f in files && g in files && SearchedBefore(f, g) :: Shadows(f, g))
  }

  /** Members with the same number are the same file. */
  lemma SameNumber(files: seq<File>, f: File, g: File)
    requires UniqueNumbers(files) && f in files && g in files && f.number == g.number
    ensures f == g
  {
    var i :| 0 <= i < |files| && files[i] == f;
    var j :| 0 <= j < |files| && files[j] == g;
    if i < j {} else if j < i {}
  }

  lemma {:induction false} RetainUnique(files: seq<File>, removed: seq<nat>)
    requires UniqueNumbers(files)
    ensures UniqueNumbers(Retain(files, removed))
  {
    if files != [] {
      var rest := Retain(files[1..], removed);
      RetainUnique(files[1..], removed);
      forall j | 0 <= j < |rest|
        ensures rest[j].number != files[0].number
      {
        assert rest[j] in files[1..];
      }
    }
  }

  lemma {:induction false} AtLevelUnique(files: seq<File>, level: nat)
    requires UniqueNumbers(files)
    ensures UniqueNumbers(AtLevel(files, level))
  {
    if files != [] {
      var rest := AtLevel(files[1..], level);
      AtLevelUnique(files[1..], level);
      assert forall j | 0 <= j < |rest| :: rest[j] in files[1..];
    }
  }
}
