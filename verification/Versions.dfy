/** Versions of keys, and what it means for one set of them to answer for another. */
module Versions {
  import opened Keys

  datatype Option<+T> = None | Some(value: T)

  /** One mutation: the value a key was bound to, or None for a tombstone, under its sequence number. */
  datatype Version = Version(key: Bytes, seqno: nat, value: Option<Bytes>)

  /** The three answers a lookup in one table can give. */
  datatype Lookup = Found(value: Bytes) | Deleted | Missing

  /** Sequence numbers identify mutations. */
  ghost predicate Distinct(s: set<Version>) {
    forall v, w | v in s && w in s && v.seqno == w.seqno :: v == w
  }

  ghost predicate HasKey(s: set<Version>, k: Bytes) {
    exists v :: v in s && v.key == k
  }

  /** v is at least as new as every version of its key in s. */
  ghost predicate NewestIn(v: Version, s: set<Version>) {
    forall w | w in s && w.key == v.key :: w.seqno <= v.seqno
  }

  /** The newest version of every key. */
  ghost function Reduce(s: set<Version>): set<Version> {
    set v | v in s && NewestIn(v, s)
  }

  /** The newest version of one key. */
  ghost function Newest(s: set<Version>, k: Bytes): (r: Option<Version>)
    ensures r.None? <==> !HasKey(s, k)
    ensures r.Some? ==> r.value in s && r.value.key == k && NewestIn(r.value, s)
  {
    if s == {} then None
    else
      var v :| v in s;
      var r := Newest(s - {v}, k);
      assert s == (s - {v}) + {v};
      if v.key == k && (r.None? || r.value.seqno <= v.seqno) then Some(v) else r
  }

  function Shown(v: Option<Version>): Lookup {
    match v
    case None => Missing
    case Some(w) => if w.value.Some? then Found(w.value.value) else Deleted
  }

  /** What a caller sees: a tombstone and an absent key look the same. */
  function Visible(l: Lookup): Option<Bytes> {
    if l.Found? then Some(l.value) else None
  }

  /** The newest write of each key, as one map would hold it. */
  ghost function Answer(s: set<Version>, k: Bytes): Option<Bytes> {
    Visible(Shown(Newest(s, k)))
  }

  /**
   * s answers for the whole history h: it invents nothing, and of each key it holds the newest version,
   * unless that version is a tombstone and s holds nothing of the key at all.
   */
  ghost predicate StandsFor(s: set<Version>, h: set<Version>) {
    && s <= h
    && forall v | v in h && NewestIn(v, h) :: v in s || (v.value.None? && !HasKey(s, v.key))
  }

  /** Standing for a history is answering every read as the history does. */
  lemma StandsForAnswers(s: set<Version>, h: set<Version>, k: Bytes)
    requires Distinct(h) && StandsFor(s, h)
    ensures Answer(s, k) == Answer(h, k)
  {
    var a, b := Newest(s, k), Newest(h, k);
    if a.Some? {
      assert a.value in h && HasKey(h, k);
    }
    if b.Some? {
      var v := b.value;
      assert v in s || (v.value.None? && !HasKey(s, v.key));
      if v in s {
        assert HasKey(s, k);
        assert a.value.seqno == v.seqno;
      }
    }
  }

  /** A newer layer that holds every version past a cut, over a set that answers up to a later cut. */
  lemma LayerOver(top: set<Version>, s: set<Version>, h: set<Version>, low: nat, mid: nat)
    requires Distinct(h)
    requires low <= mid
    requires top == (set v | v in h && v.seqno > low)
    requires StandsFor(s, set v | v in h && v.seqno <= mid)
    ensures StandsFor(top + s, h)
    ensures forall v, w | v in top && w in s && v.key == w.key && NewestIn(v, top) :: w.seqno <= v.seqno
  {
    var below := set v | v in h && v.seqno <= mid;
    forall v | v in h && NewestIn(v, h)
      ensures v in top + s || (v.value.None? && !HasKey(top + s, v.key))
    {
      if v !in top {
        assert v in below && NewestIn(v, below);
        if HasKey(top + s, v.key) {
          var w :| w in top + s && w.key == v.key;
          assert w in h && w.seqno <= v.seqno;
          assert w in s;
        }
      }
    }
    forall v, w | v in top && w in s && v.key == w.key && NewestIn(v, top)
      ensures w.seqno <= v.seqno
    {
      assert w in below;
      if w.seqno > low {
        assert w in top;
      }
    }
  }

  /** Keeping only the newest version of each key in the top layer loses no answer. */
  lemma ReducedLayer(top: set<Version>, s: set<Version>, h: set<Version>)
    requires StandsFor(top + s, h)
    ensures StandsFor(Reduce(top) + s, h)
  {
    forall v | v in h && NewestIn(v, h)
      ensures v in Reduce(top) + s || (v.value.None? && !HasKey(Reduce(top) + s, v.key))
    {
      if v in top {
        assert NewestIn(v, top);
      }
    }
  }
}
