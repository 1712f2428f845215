/** Joins that lose samples for good, each reached from every state of its kind.

    OverlappedJoinCanLose: the scan finds slot 0 empty, samples 1 and 2 are then published,
    and the scan picks up sample 2 from slot 1.  The trim sees no gap in [2], the watermark
    becomes 2, and the datagram of sample 1 is dropped as a duplicate.

    WrappedJoinCanLose: more samples than there are slots are published while the join is
    under way.  The pull finds the newest of them, and the datagram of an older one, which is
    in the socket, is dropped as a duplicate.

    TrimmedJoinCanLose: the trim drops records of samples that were published before the
    joiner registered and that no datagram will bring. */
module JoinLoss {
  import opened Wire
  import opened Schedule
  import opened LatchProtocol
  import opened Sorting
  import opened LatchedPull
  import opened LatchedJoin
  import Arith

  // ----- Runs -----

  /** A sample has its number and is not latched yet. */
  predicate InHand(s: State) { s.pc.Assigned? || Writing(s) }

  /** Every sample numbered so far is latched, or is in hand. */
  predicate NoLatchFailed(s: State) {
    s.nextSeq == |s.log| + 1 + if InHand(s) then 1 else 0
  }

  lemma {:induction false} CopyAll(run: seq<State>) returns (run': seq<State>)
    requires Run(run) && Last(run).pc.Copying?
    ensures Run(run') && run <= run' && SampleOk(Last(run).pc.sample)
    ensures var s, s' := Last(run), Last(run');
            s'.pc == Copying(s.pc.sample, |SlotCells(s.pc.sample)|)
            && s' == s.(slots := s'.slots, pc := s'.pc) && |s'.slots| == |s.slots| > 0 && s.nextIndex > 0
    decreases SLOT_CELLS - Last(run).pc.done
  {
    var s := Last(run);
    RunInv(run, |run| - 1);
    assert SlotInv(s, Target(s));
    if s.pc.done == |SlotCells(s.pc.sample)| {
      run' := run;
    } else {
      var slot := s.slots[Target(s)];
      var s1 := SetTarget(s, slot.(cells := slot.cells[s.pc.done := SlotCells(s.pc.sample)[s.pc.done]])).(
                  pc := Copying(s.pc.sample, s.pc.done + 1));
      assert CopyCell(s, s1);
      Append(run, s1);
      run' := CopyAll(run + [s1]);
    }
  }

  /** The latch of a sample in hand, from wherever it has got to. */
  lemma FinishLatch(run: seq<State>) returns (run': seq<State>)
    requires Run(run) && InHand(Last(run)) && Latchable(Last(run).pc.sample)
    ensures Run(run') && run <= run'
    ensures var s, s' := Last(run), Last(run');
            s' == s.(slots := s'.slots, pc := Fenced(s.pc.sample, true), nextIndex := s.nextIndex + 1,
                     log := s.log + [s.pc.sample])
            && |s'.slots| == |s.slots|
    decreases if Last(run).pc.Assigned? then 2 else if Last(run).pc.Marked? then 1 else 0
  {
    var s := Last(run);
    RunInv(run, |run| - 1);
    var sample := s.pc.sample;
    if s.pc.Assigned? {
      var s1 := SetTarget(s, s.slots[Target(s)].(seqWord := 2 * s.nextIndex - 1)).(pc := Marked(sample));
      assert MarkSlot(s, s1);
      Append(run, s1);
      run' := FinishLatch(run + [s1]);
    } else if s.pc.Marked? {
      var s1 := SetTarget(s, s.slots[Target(s)].(len := |SlotMessage(sample).payload|)).(pc := Copying(sample, 0));
      assert StoreLength(s, s1);
      Append(run, s1);
      run' := FinishLatch(run + [s1]);
    } else {
      var copied := CopyAll(run);
      var s1 := Last(copied);
      var s2 := SetTarget(s1, s1.slots[Target(s1)].(seqWord := 2 * s1.nextIndex)).(
                  pc := Fenced(sample, true), nextIndex := s1.nextIndex + 1, log := s1.log + [sample]);
      assert Commit(s1, s2);
      Append(copied, s2);
      run' := copied + [s2];
    }
  }

  /** No joiner has begun to register. */
  predicate Unknown(s: State) { s.joinPhase.Absent? && !s.joinerCached }

  /** The fan-out, from wherever it has got to: the message is sent or the joiner unknown. */
  lemma FinishFanOut(run: seq<State>) returns (run': seq<State>)
    requires Run(run) && !Last(run).pc.Idle? && !InHand(Last(run))
    ensures Run(run') && run < run'
    ensures var s, s' := Last(run), Last(run');
            s' == s.(pc := Idle, cachedGeneration := s'.cachedGeneration, joinerCached := s'.joinerCached,
                     socket := s'.socket)
            && s'.socket in {s.socket, s.socket + [WireMessage(s.pc.sample, s.pc.latched)]}
            && (Unknown(s) ==> Unknown(s') && s'.socket == s.socket)
    decreases if Last(run).pc.Fenced? then 3 else if Last(run).pc.Loaded? then 2 else if Last(run).pc.Querying? then 1 else 0
  {
    var s := Last(run);
    if s.pc.Sending? {
      var s1 := s.(pc := Idle, socket := if s.joinerCached then s.socket + [WireMessage(s.pc.sample, s.pc.latched)]
                                         else s.socket);
      assert Send(s, s1);
      Append(run, s1);
      run' := run + [s1];
    } else {
      var s1 := NextOfFanOut(s);
      Append(run, s1);
      run' := FinishFanOut(run + [s1]);
    }
  }

  lemma NextOfFanOut(s: State) returns (s': State)
    requires s.pc.Fenced? || s.pc.Loaded? || s.pc.Querying?
    ensures FanOutStep(s, s') && s' == s.(pc := s'.pc, cachedGeneration := s'.cachedGeneration, joinerCached := s'.joinerCached)
    ensures !s'.pc.Idle? && s'.pc.sample == s.pc.sample
    ensures s.pc.Fenced? ==> (s'.pc.Loaded? || s'.pc.Sending?) && s'.pc.latched == s.pc.latched
    ensures s.pc.Loaded? ==> s'.pc.Querying? && s'.pc.latched == s.pc.latched
    ensures s.pc.Querying? ==> s'.pc.Sending? && s'.pc.latched == s.pc.latched
    ensures Unknown(s) ==> Unknown(s')
  {
    match s.pc
    case Fenced(sample, latched) =>
      s' := s.(pc := if s.generation > s.cachedGeneration then Loaded(sample, latched, s.generation) else Sending(sample, latched));
      assert LoadGeneration(s, s');
    case Loaded(sample, latched, seen) =>
      s' := s.(pc := Querying(sample, latched, seen, s.highWater));
      assert QueryBound(s, s');
    case Querying(sample, latched, seen, bound) =>
      s' := s.(pc := Sending(sample, latched), cachedGeneration := seen,
               joinerCached := s.joinIndex < bound && s.joinPhase != Absent);
      assert QuerySlot(s, s');
  }

  /** The publish under way, if there is one, runs to its end. */
  lemma FinishPublish(run: seq<State>) returns (run': seq<State>)
    requires Run(run)
    ensures Run(run') && run <= run' && Last(run').pc.Idle? && Last(run').joinPhase == Last(run).joinPhase
    ensures Last(run').nextSeq == Last(run).nextSeq && Last(run').gid == Last(run).gid
    ensures Last(run').log == if InHand(Last(run)) && Latchable(Last(run).pc.sample) then Last(run).log + [Last(run).pc.sample]
                              else Last(run).log
    ensures |Last(run').slots| == |Last(run).slots|
  {
    run' := run;
    var s := Last(run);
    if InHand(s) && Latchable(s.pc.sample) {
      run' := FinishLatch(run');
    } else if InHand(s) {
      RunInv(run, |run| - 1);
      assert s.pc.Assigned?;
      assert LatchFails(s, s.(pc := Fenced(s.pc.sample, false)));
      Append(run, s.(pc := Fenced(s.pc.sample, false)));
      run' := run + [s.(pc := Fenced(s.pc.sample, false))];
    }
    if !Last(run').pc.Idle? {
      run' := FinishFanOut(run');
    }
  }

  function Empty(gid: Cells, n: int): Sample {
    Sample(WireHeader(gid, n, 0, 0, 0, false), [], None)
  }

  /** One more empty sample is latched and sent. */
  lemma Publish(run: seq<State>) returns (run': seq<State>)
    requires Run(run) && Last(run).pc.Idle?
    ensures Run(run') && run < run' && Last(run').pc.Idle? && Last(run').joinPhase == Last(run).joinPhase
    ensures Last(run').nextSeq == Last(run).nextSeq + 1 && Last(run').gid == Last(run).gid
    ensures Last(run').log == Last(run).log + [Empty(Last(run).gid, Last(run).nextSeq)]
    ensures |Last(run').slots| == |Last(run).slots|
    ensures Last(run').socket in {Last(run).socket,
                                  Last(run).socket + [InlineMessage(Empty(Last(run).gid, Last(run).nextSeq))]}
    ensures Unknown(Last(run)) ==> Unknown(Last(run')) && Last(run').socket == Last(run).socket
  {
    var s := Last(run);
    RunInv(run, |run| - 1);
    RunGrows(run, 0, |run| - 1);
    var s1 := s.(pc := Assigned(Empty(s.gid, s.nextSeq)), nextSeq := s.nextSeq + 1);
    assert BeginPublish(s, s1);
    Append(run, s1);
    run' := FinishLatch(run + [s1]);
    run' := FinishFanOut(run');
  }

  /** `count` of them. */
  lemma {:induction false} PublishMany(run: seq<State>, count: nat) returns (run': seq<State>)
    requires Run(run) && Last(run).pc.Idle?
    ensures Run(run') && run <= run' && Last(run').pc.Idle? && Last(run').joinPhase == Last(run).joinPhase
    ensures var s, s' := Last(run), Last(run');
            s'.nextSeq == s.nextSeq + count && s'.gid == s.gid && |s'.slots| == |s.slots|
            && s.log <= s'.log && |s'.log| == |s.log| + count
            && (forall i | |s.log| <= i < |s'.log| :: s'.log[i] == Empty(s.gid, s.nextSeq + i - |s.log|))
            && (forall m | m in s'.socket :: m in s.socket || m.hdr.sequenceNumber >= s.nextSeq)
            && (Unknown(s) ==> Unknown(s') && s'.socket == s.socket)
    decreases count
  {
    if count == 0 {
      run' := run;
    } else {
      run' := PublishMany(run, count - 1);
      var before := Last(run');
      run' := Publish(run');
      assert forall m | m in Last(run').socket ::
          m in before.socket || m.hdr.sequenceNumber == before.nextSeq;
    }
  }

  /** Registered states exist, with any number of samples published before and none sent. */
  lemma Register(s: State, count: nat) returns (run: seq<State>)
    requires Init(s)
    ensures Run(run) && run[0] == s && Last(run).joinPhase.Bumped? && Last(run).pc.Idle? && NoLatchFailed(Last(run))
    ensures |Last(run).slots| == |s.slots| && Last(run).socket == [] && |Last(run).log| == count
    ensures forall i | 0 <= i < count :: Last(run).log[i] == Empty(s.gid, i + 1)
  {
    var before := PublishMany([s], count);
    var s0 := Last(before);
    var s1 := s0.(joinPhase := Published);
    var s2 := s1.(joinPhase := Widened,
                  highWater := if s1.highWater < s1.joinIndex + 1 then s1.joinIndex + 1 else s1.highWater);
    var s3 := s2.(joinPhase := Bumped, generation := s2.generation + 1, joinGeneration := s2.generation + 1,
                  joinLog := |s2.log|);
    assert JoinPublish(s0, s1) && JoinWiden(s1, s2) && JoinBump(s2, s3);
    Append(before, s1);
    Append(before + [s1], s2);
    Append(before + [s1] + [s2], s3);
    run := before + [s1] + [s2] + [s3];
  }

  /** The drain of the datagrams in `sent` after a pull whose records all resolve: descriptors
      are dropped, everything else above the watermark is queued. */
  lemma {:induction false} Drain(j: Join, log: seq<Sample>, sent: seq<Message>, pulled: seq<Message>)
    returns (src: seq<nat>, stream: seq<Message>)
    requires AllRestored(log, j.records, j.taken, pulled)
    ensures Streamed(j, log, sent, src, stream)
    decreases |sent|
  {
    if sent == [] {
      src, stream := [], pulled;
      PulledIsStreamed(j, log, pulled);
    } else {
      var front, m := sent[..|sent| - 1], sent[|sent| - 1];
      assert sent == front + [m];
      src, stream := Drain(j, log, front, pulled);
      if m.hdr.viaShm || Duplicate(j.watermark, m) {
        StreamLess(j, log, front, src, stream, m);
      } else {
        StreamMore(j, log, front, src, stream, m, m);
        src, stream := src + [|front|], stream + [m];
      }
    }
  }

  // ----- An empty ring -----

  /** THE LOSS, from any registered state in which nothing is latched yet, be it in the middle
      of the first publish.  Slot 0 is read at the start of the scan and yields nothing, slot
      1 is read at the end and found to hold sample 2; slot 0 has moved by then, so the pull
      is overlapped.  The trimmed pull is [sample 2], and sample 1 never reaches the joiner. */
  lemma OverlappedJoinCanLose(run0: seq<State>) returns (run: seq<State>, j: Join, stream: seq<Message>)
    requires Run(run0) && Last(run0).joinPhase.Bumped? && Last(run0).log == [] && NoLatchFailed(Last(run0))
    requires InHand(Last(run0)) ==> Latchable(Last(run0).pc.sample) && SentInline(Last(run0).pc.sample)
    requires |Last(run0).slots| >= 2
    ensures run0 < run && PlainJoin(run, j, |run| - 1, [], stream) && j.overlapped && j.start == |run0| - 1
    ensures Scanned(run, j.start, j.finish, 0, Last(run0).slots[0].seqWord, None)
    ensures |Last(run).log| == 2 && Scanned(run, j.start, j.finish, 1, 4, Some(SlotMessage(Last(run).log[1])))
    ensures |Last(run).slots| >= 2 && Last(run).slots[0].seqWord == 2
    ensures Finished(Last(run), 1) && !DeliveredOnce(stream, Last(run).log[0])
  {
    var a := |run0| - 1;
    RunInv(run0, a);
    assert SlotInv(run0[a], 0);
    run := TwoPublished(run0);
    var e := |run| - 1;
    var s := Last(run);
    RunInv(run, e);
    HeldInSlot(s, 1);
    HeldInSlot(s, 2);
    assert run[a] == Last(run0);
    RunGrows(run, a, e);
    assert ScannedAt(run, a, e, 0, run0[a].slots[0].seqWord, None);
    assert ScannedAt(run, e, e, 1, 4, Some(SlotMessage(s.log[1])));
    j, stream := LosingJoin(run, a);
    FirstIsLost(run, j, e, [], stream);
  }

  /** The first two samples are latched and sent. */
  lemma TwoPublished(run0: seq<State>) returns (run: seq<State>)
    requires Run(run0) && Last(run0).log == [] && NoLatchFailed(Last(run0))
    requires InHand(Last(run0)) ==> Latchable(Last(run0).pc.sample) && SentInline(Last(run0).pc.sample)
    ensures Run(run) && run0 < run && Last(run).pc.Idle? && Last(run).nextSeq == 3
    ensures |Last(run).log| == 2 && Seqno(Last(run).log[0]) == 1 && SentInline(Last(run).log[0])
    ensures Last(run).log[1] == Empty(Last(run).gid, 2) && |Last(run).slots| == |Last(run0).slots|
  {
    RunInv(run0, |run0| - 1);
    if InHand(Last(run0)) {
      run := FinishPublish(run0);
    } else {
      run := Publish(run0);
    }
    run := Publish(run);
  }

  /** Where nothing was committed, no slot holds a record throughout. */
  lemma NothingHeld(run: seq<State>, a: nat, e: nat)
    requires Run(run) && a <= e < |run| && run[a].log == []
    ensures forall i: nat :: !HeldThroughout(run, a, e, i)
  {
    RunInv(run, a);
    forall i: nat
      ensures !HeldThroughout(run, a, e, i)
    {
      if i < |run[a].slots| { assert SlotInv(run[a], i); }
    }
  }

  /** The pull of sample 2 alone is a possible outcome of that scan. */
  lemma LosingJoin(run: seq<State>, a: nat) returns (j: Join, stream: seq<Message>)
    requires Run(run) && a < |run| - 1 && run[a].joinPhase.Bumped? && run[a].log == [] && |run[a].slots| >= 2
    requires var s := Last(run);
             |s.log| == 2 && Seqno(s.log[0]) == 1 && SentInline(s.log[0]) && s.log[1] == Empty(s.gid, 2)
             && |s.slots| == |run[a].slots| && s.slots[0].seqWord != run[a].slots[0].seqWord && s.nextSeq == 3
             && s.pc.Idle? && Scanned(run, a, |run| - 1, 1, 4, Some(SlotMessage(s.log[1])))
    ensures PlainJoin(run, j, |run| - 1, [], stream) && j.overlapped && j.start == a && j.finish == |run| - 1
    ensures !StartsAtFirst(j)
  {
    var e, s := |run| - 1, Last(run);
    RunGrows(run, a, e);
    var m := SlotMessage(s.log[1]);
    j := Join(a, e, e, 2, true, [m], [m], 1, Some(2));
    stream := [m];
    NothingHeld(run, a, e);
    assert WasRead(run, a, e, m);
    assert IsSample(s.log, m, 2);
    assert UncommittedAt(run, a, 1);
    assert MissedAt(run, a, e, 1);
    RunInv(run, e);
    assert forall c | 0 <= c < |s.socket| :: Duplicate(j.watermark, s.socket[c]);
  }

  /** Every join that starts here is lossless, as far as the setting of PlainJoin goes: the
      ring does not wrap before the scan ends, the joiner's depth holds what was committed by
      then, every latch succeeds, the pulled records resolve, no datagram needs a segment. */
  ghost predicate EveryPlainJoinLossless(run0: seq<State>) {
    forall run: seq<State>, j: Join, e: nat, src: seq<nat>, stream: seq<Message> ::
      run0 <= run && j.start == |run0| - 1 && PlainJoin(run, j, e, src, stream) ==> Lossless(run[e], stream)
  }

  /** WHILE THE RING DOES NOT WRAP, a joiner can tell beforehand: every plain join from here
      is lossless if and only if a sample is already committed.  WrappedJoinCanLose shows that
      no such test exists once the ring may wrap. */
  lemma LosslessBeforehandIff(run0: seq<State>)
    requires Run(run0) && Last(run0).joinPhase.Bumped? && NoLatchFailed(Last(run0)) && |Last(run0).slots| >= 2
    requires InHand(Last(run0)) ==> Latchable(Last(run0).pc.sample) && SentInline(Last(run0).pc.sample)
    ensures EveryPlainJoinLossless(run0) <==> |Last(run0).log| >= 1
  {
    if |Last(run0).log| >= 1 {
      forall run: seq<State>, j: Join, e: nat, src: seq<nat>, stream: seq<Message> |
        run0 <= run && j.start == |run0| - 1 && PlainJoin(run, j, e, src, stream)
        ensures Lossless(run[e], stream)
      {
        assert run[j.start] == Last(run0);
        EarlySampleMakesJoinLossless(run, j, e, src, stream);
      }
    } else {
      var run, j, stream := OverlappedJoinCanLose(run0);
      assert !Lossless(run[|run| - 1], stream);
    }
  }

  // ----- A ring that wraps during the join -----

  /** At t nobody writes and the ring holds samples of consecutive numbers, all embedded. */
  ghost predicate Consecutive(s: State) {
    && s.pc.Idle? && 0 < |s.slots| < |s.log|
    && forall i | |s.log| - |s.slots| <= i < |s.log| ::
         s.log[i].staged.None? && Seqno(s.log[i]) == Seqno(s.log[|s.log| - 1]) + i - (|s.log| - 1)
  }

  /** A pull whose scan reads every slot at t, and whose re-check agrees or, later, does not. */
  lemma NewestPull(run: seq<State>, a: nat, t: nat, e: nat, overlapped: bool) returns (j: Join)
    requires Run(run) && a <= t <= e < |run| && run[a].joinPhase.Bumped? && Consecutive(run[t])
    requires overlapped ==> Moved(run, a, e)
    ensures var s := run[t];
            var r := Replay(s, |s.slots|);
            j == Join(a, t, if overlapped then e else t, |s.slots|, overlapped, r, r, |s.slots|, Some(Seqno(s.log[|s.log| - 1])))
            && |r| == |s.slots| && (forall m | m in r :: !m.hdr.viaShm) && LastSequence(r) == Seqno(s.log[|s.log| - 1])
    ensures Joined(run, j)
  {
    var s := run[t];
    RunInv(run, t);
    RunGrows(run, t, e);
    var n, r := |s.slots|, Replay(s, |s.slots|);
    j := Join(a, t, if overlapped then e else t, n, overlapped, r, r, n, Some(Seqno(s.log[|s.log| - 1])));
    WholeRing(s);
    WholeRingKept(run, a, t, j.finish);
    forall p | 0 <= p < n
      ensures IsSample(run[j.finish].log, r[p], |s.log| - n + p + 1)
    {
      assert run[j.finish].log[|s.log| - n + p] == s.log[|s.log| - n + p];
    }
  }

  lemma WholeRing(s: State)
    requires Consecutive(s) && LogAscends(s.log)
    ensures var n, r := |s.slots|, Replay(s, |s.slots|);
            |r| == n && Ascending(r) && forall p | 0 <= p < n :: r[p] == InlineMessage(s.log[|s.log| - n + p])
  {
    var n, r := |s.slots|, Replay(s, |s.slots|);
    ReplayAscends(s, n);
    forall p | 0 <= p < n
      ensures r[p] == InlineMessage(s.log[|s.log| - n + p])
    {
      ReplayAt(s, n, p);
    }
  }

  /** The scan at t reads every slot, and finds a sample in it. */
  lemma ReadsAll(run: seq<State>, a: nat, t: nat, e: nat, i: nat)
    requires Run(run) && a <= t <= e < |run| && Consecutive(run[t]) && i < |run[t].slots|
    ensures var word := run[t].slots[i].seqWord;
            0 < word / 2 <= |run[t].log| && Scanned(run, a, e, i, word, Some(SlotMessage(run[t].log[word / 2 - 1])))
  {
    RunInv(run, t);
    RunGrows(run, t, e);
    var word := run[t].slots[i].seqWord;
    assert SlotInv(run[t], i);
    assert ScannedAt(run, t, e, i, word, Some(SlotMessage(run[t].log[word / 2 - 1])));
  }

  /** A pull of the whole ring at t reads its records, and misses nothing held throughout. */
  lemma WholeRingKept(run: seq<State>, a: nat, t: nat, finish: nat)
    requires Run(run) && a <= t <= finish < |run| && Consecutive(run[t])
    ensures ReadsAndKeeps(run, a, finish, |run[t].slots|, Replay(run[t], |run[t].slots|))
  {
    var s, n := run[t], |run[t].slots|;
    var r := Replay(s, n);
    RunInv(run, t);
    WholeRing(s);
    forall m | m in r
      ensures WasRead(run, a, finish, m)
    {
      var p :| 0 <= p < n && r[p] == m;
      ReplayedWasRead(run, a, t, finish, p);
    }
    forall i: nat | HeldThroughout(run, a, finish, i)
      ensures Kept(r, n, SlotMessage(run[finish].log[run[finish].slots[i].seqWord / 2 - 1]))
    {
      HeldIsReplayed(run, a, t, finish, i);
    }
  }

  lemma ReplayedWasRead(run: seq<State>, a: nat, t: nat, finish: nat, p: nat)
    requires Run(run) && a <= t <= finish < |run| && Consecutive(run[t])
    requires p < |Replay(run[t], |run[t].slots|)| == |run[t].slots|
    ensures WasRead(run, a, finish, Replay(run[t], |run[t].slots|)[p])
  {
    var s, n := run[t], |run[t].slots|;
    RunInv(run, t);
    ReplayAt(s, n, p);
    var i := HeldSomewhere(s, |s.log| - n + p + 1);
    ReadsAll(run, a, t, finish, i);
  }

  lemma HeldIsReplayed(run: seq<State>, a: nat, t: nat, finish: nat, i: nat)
    requires Run(run) && a <= t <= finish < |run| && Consecutive(run[t])
    requires |Replay(run[t], |run[t].slots|)| == |run[t].slots| && HeldThroughout(run, a, finish, i)
    ensures SlotMessage(run[finish].log[run[finish].slots[i].seqWord / 2 - 1]) in Replay(run[t], |run[t].slots|)
  {
    var s, n := run[t], |run[t].slots|;
    var k := HeldMeanwhile(run, a, t, finish, i);
    ReplayAt(s, n, k - 1 - (|s.log| - n));
  }

  /** What a slot holds throughout it holds in between, as one of the newest samples. */
  lemma HeldMeanwhile(run: seq<State>, a: nat, t: nat, finish: nat, i: nat) returns (k: nat)
    requires Run(run) && a <= t <= finish < |run| && run[t].pc.Idle? && HeldThroughout(run, a, finish, i)
    ensures i < |run[t].slots| == |run[finish].slots| && run[t].slots[i].seqWord == run[finish].slots[i].seqWord == 2 * k
    ensures 1 <= k <= |run[t].log| < k + |run[t].slots| && k <= |run[finish].log|
    ensures run[finish].log[k - 1] == run[t].log[k - 1]
  {
    RunInv(run, t);
    RunGrows(run, a, t);
    RunGrows(run, t, finish);
    k := run[t].slots[i].seqWord / 2;
    assert SlotInv(run[t], i);
  }

  /** A latch after time a moves the slot it goes to. */
  lemma LatchMoves(run: seq<State>, a: nat, e: nat)
    requires Run(run) && a <= e < |run| && run[e].pc.Idle? && |run[a].log| < |run[e].log|
    ensures Moved(run, a, e)
  {
    RunInv(run, a);
    RunInv(run, e);
    RunGrows(run, a, e);
    HeldInSlot(run[e], |run[e].log|);
    var i := Arith.Residue(|run[e].log| - 1, |run[e].slots|);
    assert SlotInv(run[a], i);
  }

  /** A sample published after the registration, as long as its fan-out has returned, is in
      the joiner's socket. */
  lemma LateIsSent(run: seq<State>, a: nat, e: nat, k: nat)
    requires Run(run) && a <= e < |run| && run[a].joinPhase.Bumped? && run[e].pc.Idle?
    requires |run[a].log| <= k < |run[e].log|
    ensures WireMessage(run[e].log[k], true) in run[e].socket
  {
    RunInv(run, a);
    RunInv(run, e);
    RunGrows(run, a, e);
    assert Finished(run[e], k + 1);
  }

  /** Every slot is read at j.instant, and yields what it holds. */
  ghost predicate ScansAll(run: seq<State>, j: Join) {
    && j.instant < |run|
    && forall i | 0 <= i < |run[j.instant].slots| ::
         var word := run[j.instant].slots[i].seqWord;
         && 0 < word / 2 <= |run[j.instant].log|
         && Scanned(run, j.start, j.finish, i, word, Some(SlotMessage(run[j.instant].log[word / 2 - 1])))
  }

  /** A join that started when run0 ended, all of whose records resolved, and whose drain to
      the end of run has not delivered sample k + 1, whose publish is over. */
  ghost predicate Loses(run0: seq<State>, run: seq<State>, j: Join, k: nat, src: seq<nat>, stream: seq<Message>) {
    && 0 < |run0| && run0 <= run && Run(run) && Joined(run, j) && j.start == |run0| - 1 && j.finish < |run|
    && j.taken == |j.records| && Streamed(j, Last(run).log, Last(run).socket, src, stream)
    && k < |Last(run).log| && Finished(Last(run), k + 1) && !DeliveredOnce(stream, Last(run).log[k])
  }

  /** A sample below the watermark that the pull did not bring is lost. */
  lemma PassedOver(run: seq<State>, j: Join, e: nat, k: nat, src: seq<nat>, stream: seq<Message>)
    requires Run(run) && Joined(run, j) && j.finish <= e < |run| && k < |run[e].log|
    requires Streamed(j, run[e].log, run[e].socket, src, stream) && SentInline(run[e].log[k])
    requires forall m | m in j.records :: m.hdr.sequenceNumber != Seqno(run[e].log[k])
    requires j.watermark.Some? && Seqno(run[e].log[k]) <= j.watermark.value
    ensures !DeliveredOnce(stream, run[e].log[k])
  {
    DeliveredIff(run, j, e, k, src, stream);
  }

  /** One sample, then as many as there are slots, the scan, and perhaps one more. */
  lemma WrapDuringJoin(run0: seq<State>, overlapped: bool) returns (run: seq<State>, t: nat, k: nat)
    requires Run(run0)
    ensures run0 <= run && Run(run) && |run0| <= t + 1 <= |run| && Last(run).pc.Idle?
    ensures Consecutive(run[t]) && |run[t].slots| == |Last(run0).slots|
    ensures |Last(run0).log| <= k < |run[t].log| - |run[t].slots| && (overlapped ==> |run[t].log| < |Last(run).log|)
    ensures k < |Last(run).log| && Last(run).log[k].staged.None?
            && Seqno(Last(run).log[k]) == Seqno(run[t].log[|run[t].log| - 1]) - |run[t].slots|
  {
    RunInv(run0, |run0| - 1);
    var settled := FinishPublish(run0);
    k := |Last(settled).log|;
    var scanned := PublishMany(settled, |Last(run0).slots| + 1);
    t := |scanned| - 1;
    run := scanned;
    if overlapped { run := Publish(scanned); }
    assert run[t] == Last(scanned);
  }

  /** THE LOSS BY WRAPPING, from every registered state there is, and whether or not the pull
      notices.  The publish under way ends, one sample is published, and then as many as
      there are slots, before any slot is read.  With `overlapped` one more comes between the
      scan and the re-check.  The pull is the whole ring; the watermark is its newest sample.
      The one sample is in the socket, and is dropped as a duplicate. */
  lemma WrappedJoinCanLose(run0: seq<State>, overlapped: bool)
    returns (run: seq<State>, j: Join, k: nat, src: seq<nat>, stream: seq<Message>)
    requires Run(run0) && Last(run0).joinPhase.Bumped?
    ensures Loses(run0, run, j, k, src, stream) && j.overlapped == overlapped
    ensures ScansAll(run, j) && j.depth == |run[j.instant].slots| && j.records == j.pulled == Replay(run[j.instant], j.depth)
    ensures |Last(run0).log| <= k && SentInline(Last(run).log[k])
            && WireMessage(Last(run).log[k], true) in Last(run).socket
  {
    var a, t := |run0| - 1, 0;
    run, t, k := WrapDuringJoin(run0, overlapped);
    var e := |run| - 1;
    assert run[a] == Last(run0);
    RunGrows(run, t, e);
    if overlapped { LatchMoves(run, a, e); }
    j := NewestPull(run, a, t, e, overlapped);
    forall i | 0 <= i < |run[t].slots|
      ensures var word := run[t].slots[i].seqWord;
              0 < word / 2 <= |run[t].log|
              && Scanned(run, a, j.finish, i, word, Some(SlotMessage(run[t].log[word / 2 - 1])))
    {
      ReadsAll(run, a, t, j.finish, i);
    }
    src, stream := Drain(j, run[e].log, run[e].socket, j.records);
    LateIsSent(run, a, e, k);
    PassedOver(run, j, e, k, src, stream);
  }

  // ----- A trim that drops what no datagram brings -----

  /** Samples 1 to n fill the ring of n slots, in order. */
  ghost predicate FirstLap(s: State) {
    && s.pc.Idle? && |s.log| == |s.slots| && s.nextSeq == |s.log| + 1
    && forall i | 0 <= i < |s.log| :: Seqno(s.log[i]) == i + 1
  }

  /** What a scan finds that reads slot 0 before samples n + 1 and n + 2 come, and the rest after. */
  function Straddled(log: seq<Sample>, n: nat): (r: seq<Message>)
    requires 3 <= n && |log| == n + 2
    ensures |r| == n && r[0] == SlotMessage(log[0]) && r[n - 1] == SlotMessage(log[n + 1])
    ensures forall p | 0 < p < n - 1 :: r[p] == SlotMessage(log[p + 1])
  {
    [SlotMessage(log[0])] + Messages(log[2..n]) + [SlotMessage(log[n + 1])]
  }

  /** THE LOSS BY TRIMMING, from every registered state whose ring of three or more slots has
      just been filled by samples nobody sent to the joiner.  The scan reads sample 1 from
      slot 0, then samples n + 1 and n + 2 replace samples 1 and 2, and the scan goes on.  The
      pull is [1, 3, ..., n, n + 2] and is trimmed to [1].  Sample 3 stays in its slot all the
      while, was pulled, and reaches the joiner by no other way. */
  lemma TrimmedJoinCanLose(run0: seq<State>)
    returns (run: seq<State>, j: Join, src: seq<nat>, stream: seq<Message>)
    requires Run(run0) && Last(run0).joinPhase.Bumped? && Last(run0).socket == []
    requires FirstLap(Last(run0)) && |Last(run0).slots| >= 3
    ensures Loses(run0, run, j, 2, src, stream) && j.overlapped && j.finish == |run| - 1
    ensures Scanned(run, j.start, j.finish, 0, 2, Some(SlotMessage(Last(run).log[0])))
    ensures forall i | 1 <= i < |Last(run).slots| ::
              var word := Last(run).slots[i].seqWord;
              0 < word / 2 <= |Last(run).log|
              && Scanned(run, j.start, j.finish, i, word, Some(SlotMessage(Last(run).log[word / 2 - 1])))
    ensures 3 <= j.depth == |Last(run).slots| && |Last(run).log| == j.depth + 2 && j.pulled == Straddled(Last(run).log, j.depth)
    ensures run[j.start].slots[2].seqWord == Last(run).slots[2].seqWord == 6 && Owed(run[j.start], j.depth, 3)
  {
    var a, n := |run0| - 1, |Last(run0).slots|;
    run := PublishMany(run0, 2);
    var e := |run| - 1;
    assert run[a] == Last(run0);
    j := StraddledJoin(run, a, n);
    StraddledReads(run, a, n);
    src, stream := Drain(j, run[e].log, run[e].socket, [InlineMessage(run[e].log[0])]);
    TrimmedAway(run, j, e, src, stream);
  }

  lemma TrimmedAway(run: seq<State>, j: Join, e: nat, src: seq<nat>, stream: seq<Message>)
    requires Run(run) && Joined(run, j) && j.finish <= e < |run| && Streamed(j, run[e].log, run[e].socket, src, stream)
    requires |run[e].log| > 2 && |j.records| == 1 && j.records[0].hdr.sequenceNumber < Seqno(run[e].log[2])
    requires forall m | m in run[e].socket :: m.hdr.sequenceNumber > Seqno(run[e].log[2])
    ensures !DeliveredOnce(stream, run[e].log[2])
  {
    DeliveredIff(run, j, e, 2, src, stream);
  }

  /** Samples 1 to n and n + 1, n + 2, the latter after time a. */
  ghost predicate Straddles(run: seq<State>, a: nat, n: nat) {
    && Run(run) && a < |run| && run[a].joinPhase.Bumped? && FirstLap(run[a]) && |run[a].slots| == n >= 3
    && Last(run).pc.Idle? && |Last(run).log| == n + 2
    && (forall i | 0 <= i < n + 2 :: Seqno(Last(run).log[i]) == i + 1)
  }

  lemma StraddledJoin(run: seq<State>, a: nat, n: nat) returns (j: Join)
    requires Straddles(run, a, n)
    ensures var r := Straddled(Last(run).log, n);
            j == Join(a, a, |run| - 1, n, true, r, r[..1], 1, Some(1))
    ensures Joined(run, j) && AllRestored(Last(run).log, j.records, 1, [InlineMessage(Last(run).log[0])])
  {
    var log, e := Last(run).log, |run| - 1;
    var r := Straddled(log, n);
    j := Join(a, a, e, n, true, r, r[..1], 1, Some(1));
    RunInv(run, a);
    RunGrows(run, a, e);
    LatchMoves(run, a, e);
    forall p | 0 <= p < n
      ensures IsSample(log, r[p], r[p].hdr.sequenceNumber)
    {
      assert IsSample(log, r[p], NumberOf(n, p));
    }
    StraddledKept(run, a, n);
    assert log[0].staged.Some? ==> IsDescriptorOf(log, r[0], 0);
  }

  /** The number of the p-th record of such a pull. */
  function NumberOf(n: nat, p: nat): nat { if p == 0 then 1 else if p == n - 1 then n + 2 else p + 2 }

  lemma StraddledKept(run: seq<State>, a: nat, n: nat)
    requires Straddles(run, a, n)
    ensures ReadsAndKeeps(run, a, |run| - 1, n, Straddled(Last(run).log, n))
  {
    var log, e := Last(run).log, |run| - 1;
    var r := Straddled(log, n);
    forall m | m in r
      ensures WasRead(run, a, e, m)
    {
      var p :| 0 <= p < n && r[p] == m;
      StraddledWasRead(run, a, n, p);
    }
    forall i: nat | HeldThroughout(run, a, e, i)
      ensures SlotMessage(log[run[e].slots[i].seqWord / 2 - 1]) in r
    {
      var k := HeldMeanwhile(run, a, e, e, i);
      var _ := HeldMeanwhile(run, a, a, e, i);
      assert r[k - 2] == SlotMessage(log[k - 1]);
    }
  }

  lemma StraddledWasRead(run: seq<State>, a: nat, n: nat, p: nat)
    requires Straddles(run, a, n) && p < n
    ensures WasRead(run, a, |run| - 1, Straddled(Last(run).log, n)[p])
  {
    StraddledReads(run, a, n);
    if p > 0 {
      RunInv(run, |run| - 1);
      var i := HeldSomewhere(Last(run), NumberOf(n, p));
      if i == 0 {
        HeldInSlot(Last(run), n + 1);
        assert false;
      }
    }
  }

  lemma StraddledReads(run: seq<State>, a: nat, n: nat)
    requires Straddles(run, a, n)
    ensures var e, log := |run| - 1, Last(run).log;
            && |Last(run).slots| == n && Scanned(run, a, e, 0, 2, Some(SlotMessage(log[0])))
            && (forall i | 1 <= i < n ::
                  var word := Last(run).slots[i].seqWord;
                  0 < word / 2 <= |log| && Scanned(run, a, e, i, word, Some(SlotMessage(log[word / 2 - 1]))))
            && run[a].slots[2].seqWord == Last(run).slots[2].seqWord == 6 && Owed(run[a], n, 3)
  {
    var e, log := |run| - 1, Last(run).log;
    RunInv(run, a);
    RunInv(run, e);
    RunGrows(run, a, e);
    HeldInSlot(run[a], 1);
    HeldInSlot(run[a], 3);
    HeldInSlot(run[e], 3);
    assert run[a].log[0] == log[0];
    assert ScannedAt(run, a, e, 0, 2, Some(SlotMessage(log[0])));
    forall i | 1 <= i < n
      ensures var word := Last(run).slots[i].seqWord;
              0 < word / 2 <= |log| && Scanned(run, a, e, i, word, Some(SlotMessage(log[word / 2 - 1])))
    {
      var word := run[e].slots[i].seqWord;
      assert SlotInv(run[e], i);
      assert ScannedAt(run, e, e, i, word, Some(SlotMessage(log[word / 2 - 1])));
    }
  }
}
