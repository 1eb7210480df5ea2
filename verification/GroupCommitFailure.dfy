/**
 * The failed flag is tested before the append lock is taken: an append already past the test can be lost after it
 * returned.
 */
module GroupCommitFailure {
  import opened Keys
  import opened Versions
  import opened Coding
  import opened WalRecord
  import opened WalReplay
  import opened GroupCommit

  /** A record bigger than the one that comes after it. */
  function Big(): Version {
    Version([], 1, Some(seq(40, _ => 0)))
  }

  function Small(): Version {
    Version([], 2, None)
  }

  lemma Lengths()
    ensures Encodable(Big()) && Encodable(Small())
    ensures |Payload(Big())| == 57 && |Encoding(Small())| == 21 && |Encoding(Big())| == 65
  {
    hide Le;
  }

  /** What the file holds after eight bytes of one record and the whole of another. */
  function Damaged(): Bytes {
    Log([]) + Encoding(Big())[..HEADER_LEN] + Encoding(Small())
  }

  /** The header left behind promises more bytes than follow, so replay stops in front of it. */
  lemma NothingIsRecovered()
    ensures Recovery(Damaged(), 0) == Some(Recovered(Log([]), [], 0))
  {
    hide Le, Payload, Encoding, FileHeader, Crc, FromLe, Decode;
    Lengths();
    NoneFits(0, 0);
    var file := Damaged();
    assert Log([]) == FileHeader();
    assert file[..FILE_HEADER_LEN] == FileHeader();
    assert file[FILE_HEADER_LEN..FILE_HEADER_LEN + HEADER_LEN] == Encoding(Big())[..HEADER_LEN];
    EncodingParts(file, FILE_HEADER_LEN, Big());
    assert ReadRecord(file, FILE_HEADER_LEN) == None;
    NothingHighest(0);
  }

  ghost function Opened(file: Bytes, buf: Bytes, written: nat, last: nat, failed: bool, lock: Option<nat>,
                        first: Pc, second: Pc, records: seq<Version>, device: Bytes, synced: nat,
                            acked: set<nat>): State {
    State(Always, Shared(file, buf, written, last, 0, false, failed, lock, None), map[0 := first, 1 := second],
          Log([]), 0, records, device, synced, acked)
  }

  /** The file with the part of the first record that reached it. */
  ghost function Partial(): Bytes {
    Log([]) + Encoding(Big())[..HEADER_LEN]
  }

  /** The states of the run, in order. */
  ghost function Scene(i: nat): State
    requires i <= 9
  {
    var start, big, small := Log([]), Encoding(Big()), Encoding(Small());
    var broken, all := Partial(), [Big(), Small()];
    match i
    case 0 => Opened(start, [], 0, 0, false, None, Idle, Idle, [], start, 0, {})
    case 1 => Opened(start, [], 0, 0, false, None, Wanting(Big()), Idle, [], start, 0, {})
    case 2 => Opened(start, [], 0, 0, false, None, Wanting(Big()), Wanting(Small()), [], start, 0, {})
    case 3 => Opened(start, [], 0, 0, false, Some(0), Encode(Big()), Wanting(Small()), [], start, 0, {})
    case 4 => Opened(start, big, 0, 1, false, Some(0), Write(1), Wanting(Small()), [Big()], start, 0, {})
    case 5 => Opened(broken, [], 0, 1, true, None, Idle, Wanting(Small()), [Big()], start, 0, {})
    case 6 => Opened(broken, [], 0, 1, true, Some(1), Idle, Encode(Small()), [Big()], start, 0, {})
    case 7 => Opened(broken, small, 0, 2, true, Some(1), Idle, Write(2), all, start, 0, {})
    case 8 => Opened(broken + small, [], 2, 2, true, Some(1), Idle, Flush(2), all, start, 0, {})
    case _ => Opened(broken + small, [], 2, 2, true, None, Idle, Idle, all, broken + small, 2, {2})
  }

  ghost function Refused(): Shared {
    Scene(4).sh.(file := Partial(), buf := [], failed := true)
  }

  ghost function Deed(i: nat): (nat, Step)
    requires i <= 8
  {
    match i
    case 0 => (0, DoStartAppend(Big()))
    case 1 => (1, DoStartAppend(Small()))
    case 2 => (0, DoLockAppend)
    case 3 => (0, DoEncode)
    case 4 => (0, DoWrite(Refused(), false, HEADER_LEN))
    case 5 => (1, DoLockAppend)
    case 6 => (1, DoEncode)
    case 7 => (1, DoWrite(Scene(8).sh, true, 0))
    case _ => (1, DoFlush(true))
  }

  lemma Opening(i: nat)
    requires i <= 3
    ensures Takes(Scene(i), Deed(i).0, Scene(i + 1), Deed(i).1)
  {
    hide Encoding, Encodable, Log, Big, Small;
    if i < 3 {
      FirstSteps(Scene(0), Scene(1), Scene(2), Scene(3));
    } else {
      EncodesBig(Scene(3), Scene(4), Encoding(Big()));
    }
  }

  lemma Failing()
    ensures Takes(Scene(4), Deed(4).0, Scene(5), Deed(4).1)
  {
    hide Encoding, Encodable, Log, Big, Small, Takes;
    Lengths();
    WriteFails(Scene(4), Scene(5), Refused(), Encoding(Big()));
  }

  lemma LocksAgain()
    ensures Takes(Scene(5), Deed(5).0, Scene(6), Deed(5).1)
  {
    hide Encoding, Encodable, Log, Big, Small;
    assert Scene(6).threads == Scene(5).threads[1 := Encode(Small())];
  }

  lemma Ending(i: nat)
    requires 6 <= i <= 8
    ensures Takes(Scene(i), Deed(i).0, Scene(i + 1), Deed(i).1)
  {
    hide Encoding, Encodable, Log, Big, Small, Takes;
    Lengths();
    if i == 6 {
      EncodesSmall(Scene(6), Scene(7), Encoding(Small()));
    } else if i == 7 {
      WriteWorks(Scene(7), Scene(8), Encoding(Small()));
    } else {
      FlushWorks(Scene(8), Scene(9));
    }
  }

  lemma Starts()
    ensures Initial(Scene(0))
  {
    hide Log;
  }

  lemma LastScene()
    ensures var s := Scene(9);
            s.sh.failed && s.acked == {2} && s.sh.lastSeq == 2 && s.device == s.sh.file && s.device == Damaged()
  {
    hide Log, Encoding;
  }

  /** Two appends pass the test, the first one's write fails, and the second one writes, flushes and returns. */
  lemma AcknowledgedAppendCanBeLost() returns (states: seq<State>, steps: seq<(nat, Step)>)
    ensures Run(states, steps) && |steps| > 0
    ensures var s := states[|steps|];
            && s.sh.failed && s.acked == {2} && s.sh.lastSeq == 2 && s.device == s.sh.file
            && Recovery(s.device, 0) == Some(Recovered(Log([]), [], 0))
  {
    hide Scene, Deed, Takes, Initial, Recovery, Damaged, Log;
    states := seq(10, i requires 0 <= i <= 9 => Scene(i));
    steps := seq(9, i requires 0 <= i <= 8 => Deed(i));
    Starts();
    forall i | 0 <= i < |steps|
      ensures Takes(states[i], steps[i].0, states[i + 1], steps[i].1)
    {
      if i <= 3 {
        Opening(i);
      } else if i == 4 {
        Failing();
      } else if i == 5 {
        LocksAgain();
      } else {
        Ending(i);
      }
    }
    LastScene();
    NothingIsRecovered();
  }

  lemma FirstSteps(s0: State, s1: State, s2: State, s3: State)
    requires s0.threads == map[0 := Idle, 1 := Idle] && !s0.sh.failed && s0.sh.appendLock.None?
    requires s1 == s0.(threads := map[0 := Wanting(Big()), 1 := Idle])
    requires s2 == s0.(threads := map[0 := Wanting(Big()), 1 := Wanting(Small())])
    requires s3 == s0.(threads := map[0 := Encode(Big()), 1 := Wanting(Small())], sh := s0.sh.(appendLock := Some(0)))
    ensures Takes(s0, 0, s1, DoStartAppend(Big())) && Takes(s1, 1, s2, DoStartAppend(Small()))
            && Takes(s2, 0, s3, DoLockAppend)
  {
    hide Big, Small;
    assert s1.threads == s0.threads[0 := Wanting(Big())];
    assert s2.threads == s1.threads[1 := Wanting(Small())];
    assert s3.threads == s2.threads[0 := Encode(Big())];
  }

  lemma OwnNumbers()
    ensures Big().seqno == 1 && Big().(seqno := 1) == Big() && Small().seqno == 2 && Small().(seqno := 2) == Small()
  {
  }

  lemma EncodesBig(s: State, s': State, big: Bytes)
    requires s.policy.Always? && s.threads == map[0 := Encode(Big()), 1 := Wanting(Small())] && s.sh.lastSeq == 0
             && s.sh.buf == []
    requires big == Encoding(Big()) && s.records == []
    requires s' == s.(threads := map[0 := Write(1), 1 := Wanting(Small())], sh := s.sh.(buf := big, lastSeq := 1),
                      records := [Big()])
    ensures Takes(s, 0, s', DoEncode)
  {
    hide Encoding, Encodable, Small, Big, Payload;
    Lengths();
    OwnNumbers();
    EncodesNext(s, 0, s', Big());
  }

  /** Under `Always`, an encoded record is written next. */
  lemma EncodesNext(s: State, t: nat, s': State, v: Version)
    requires s.policy.Always? && t in s.threads && s.threads[t] == Encode(v) && v.seqno == s.sh.lastSeq + 1
    requires s.sh.buf == [] && Encodable(v) && s'.threads == s.threads[t := Write(v.seqno)]
    requires s' == s.(threads := s'.threads, sh := s.sh.(buf := Encoding(v), lastSeq := v.seqno),
                      records := s.records + [v])
    ensures Takes(s, t, s', DoEncode)
  {
    hide Encoding, Encodable, Payload;
    assert v.(seqno := s.sh.lastSeq + 1) == v && [] + Encoding(v) == Encoding(v);
  }

  lemma EncodesSmall(s: State, s': State, small: Bytes)
    requires s.policy.Always? && s.threads == map[0 := Idle, 1 := Encode(Small())] && s.sh.lastSeq == 1
             && s.sh.buf == []
    requires small == Encoding(Small()) && s.records == [Big()]
    requires s' == s.(threads := map[0 := Idle, 1 := Write(2)], sh := s.sh.(buf := small, lastSeq := 2),
                      records := [Big(), Small()])
    ensures Takes(s, 1, s', DoEncode)
  {
    hide Encoding, Encodable, Small, Big, Payload;
    Lengths();
    OwnNumbers();
    assert [Big()] + [Small()] == [Big(), Small()];
    EncodesNext(s, 1, s', Small());
  }

  lemma WriteFails(s: State, s': State, sh: Shared, big: Bytes)
    requires s.threads == map[0 := Write(1), 1 := Wanting(Small())] && s.sh.buf == big && |big| == 65
    requires sh == s.sh.(file := s.sh.file + big[..HEADER_LEN], buf := [], failed := true)
    requires s' == s.(threads := map[0 := Idle, 1 := Wanting(Small())], sh := sh.(appendLock := None))
    ensures Takes(s, 0, s', DoWrite(sh, false, HEADER_LEN))
  {
    hide Small;
    assert s'.threads == s.threads[0 := Idle];
  }

  lemma WriteWorks(s: State, s': State, small: Bytes)
    requires s.policy.Always? && s.threads == map[0 := Idle, 1 := Write(2)] && s.sh.buf == small && |small| == 21
             && s.sh.lastSeq == 2
    requires s' == s.(threads := map[0 := Idle, 1 := Flush(2)],
                      sh := s.sh.(file := s.sh.file + small, buf := [], written := 2))
    ensures Takes(s, 1, s', DoWrite(s'.sh, true, 0))
  {
    assert s'.threads == s.threads[1 := Flush(2)];
  }

  lemma FlushWorks(s: State, s': State)
    requires s.policy.Always? && s.threads == map[0 := Idle, 1 := Flush(2)] && s.sh.written == 2 && s.acked == {}
    requires s' == s.(threads := map[0 := Idle, 1 := Idle], sh := s.sh.(appendLock := None), device := s.sh.file,
                      synced := 2, acked := {2})
    ensures Takes(s, 1, s', DoFlush(true))
  {
    assert s'.threads == s.threads[1 := Idle];
    assert {} + {2} == {2};
  }
}
