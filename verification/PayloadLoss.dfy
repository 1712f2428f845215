/** Exactly when staging a payload destroys an earlier record of the segment, and why the
    survival bounds are two reservations for mixed sizes and three for one size: segments as
    create_segment makes them, payloads as large as the ring's threshold asks for. */
module PayloadLoss {
  import opened Wire
  import opened Schedule
  import opened PayloadProtocol
  import opened ShmRing
  import Arith

  // ----- The exact condition -----

  /** Run states between a and b belong to one reservation, open all the while. */
  ghost predicate OneReservation(run: seq<State>, a: nat, b: nat) {
    && a < b < |run| && run[a].pc.Idle?
    && (forall t | a < t <= b :: !run[t].pc.Idle?)
  }

  /** Offset o lies in the `count` bytes from `at` on. */
  predicate Within(o: nat, at: nat, count: nat) { at <= o < at + count }

  /** While a reservation is being filled, it has destroyed exactly the headers its bytes
      have reached. */
  lemma {:induction false} FillingDestroysIff(run: seq<State>, a: nat, u: nat, n: nat)
    requires Run(run) && OneReservation(run, a, u) && n in run[a].committed
    ensures run[u].committed == run[a].committed && run[u].nextIndex == run[a].nextIndex
    ensures run[u].offset == Place(run[a], run[a + 1].pc.cap)
    ensures run[u].pc.cap == run[a + 1].pc.cap && run[u].pc.payload == run[a + 1].pc.payload
    ensures HeaderIntact(run[u], n)
       <==> HeaderIntact(run[a], n) && !Within(run[a].committed[n].offset, run[u].offset, Reach(run[u]))
    decreases u
  {
    RunInv(run, u - 1);
    assert Linked(run, u);
    if a + 1 < u {
      FillingDestroysIff(run, a, u - 1, n);
      assert RecordInv(run[u - 1], n);
      WriteDestroysIff(run[u - 1], run[u], n);
    } else {
      assert RecordInv(run[a], n);
      ReserveDestroysIff(run[a], run[u], n);
    }
  }

  lemma ReserveDestroysIff(s: State, s': State, n: nat)
    requires GeometryInv(s) && Reserve(s, s') && n in s.committed && RecordOk(s, n)
    ensures HeaderIntact(s', n) <==> HeaderIntact(s, n) && !Within(s.committed[n].offset, s'.offset, Reach(s'))
  {
    if s'.offset < s.committed[n].offset { AlignedApart(s'.offset, s.committed[n].offset); }
  }

  /** One more write destroys the header it reaches; none it had reached was left. */
  lemma WriteDestroysIff(s: State, s': State, n: nat)
    requires GeometryInv(s) && (CopyByte(s, s') || StoreLength(s, s')) && n in s.committed && RecordOk(s, n)
    ensures s'.committed == s.committed && s'.nextIndex == s.nextIndex && s'.offset == s.offset
    ensures s'.pc.cap == s.pc.cap && s'.pc.payload == s.pc.payload
    ensures HeaderIntact(s', n) && !Within(s.committed[n].offset, s.offset, Reach(s))
       <==> HeaderIntact(s, n) && !Within(s.committed[n].offset, s.offset, Reach(s'))
    ensures HeaderIntact(s', n) ==> HeaderIntact(s, n)
  {
    if s.offset < s.committed[n].offset { AlignedApart(s.offset, s.committed[n].offset); }
  }

  /** A staging from an idle segment at a to its commit at b. */
  ghost predicate Staging(run: seq<State>, a: nat, b: nat) {
    && a + 1 < b < |run| && OneReservation(run, a, b - 1) && Commit(run[b - 1], run[b])
  }

  /** EXACTLY WHEN A RECORD IS LOST.  A writer can tell before it stages: the bytes the new
      record will take, header included, start where Place puts it. */
  lemma StagingDestroysIff(run: seq<State>, a: nat, b: nat, n: nat)
    requires Run(run) && Staging(run, a, b) && n in run[a].committed
    ensures var cap, payload := run[a + 1].pc.cap, run[a + 1].pc.payload;
            n in run[b].committed && run[b].committed[n] == run[a].committed[n]
            && (HeaderIntact(run[b], n)
                <==> HeaderIntact(run[a], n)
                     && !Within(run[a].committed[n].offset, Place(run[a], cap), RECORD_HEADER_BYTES + |payload|))
  {
    FillingDestroysIff(run, a, b - 1, n);
    RunInv(run, b - 1);
    RunKeepsRecords(run, a, b, n);
    assert RecordInv(run[b - 1], n);
  }

  // ----- Runs that reach the bounds -----

  /** States from a on only ever reserve and fill `payload` exactly. */
  ghost predicate Only(run: seq<State>, a: nat, payload: Cells) {
    forall t | a <= t < |run| && !run[t].pc.Idle? :: run[t].pc.cap == |payload| && run[t].pc.payload == payload
  }

  lemma {:induction false} CopyOn(run: seq<State>) returns (run': seq<State>)
    requires Run(run) && Last(run).pc.Copying?
    ensures Run(run') && run <= run'
    ensures Last(run').pc == Copying(Last(run).pc.cap, Last(run).pc.payload, |Last(run).pc.payload|)
    ensures Last(run') == Last(run).(area := Last(run').area, pc := Last(run').pc)
    ensures |Last(run').area| == |Last(run).area|
    ensures Last(run).pc.cap == |Last(run).pc.payload| ==> Only(run', |run| - 1, Last(run).pc.payload)
    ensures forall t | |run| - 1 <= t < |run'| :: !run'[t].pc.Idle?
    decreases |Last(run).pc.payload| - Last(run).pc.done
  {
    var s := Last(run);
    RunInv(run, |run| - 1);
    if s.pc.done == |s.pc.payload| {
      run' := run;
    } else {
      RecordBytesBounds(s.pc.cap);
      var s' := s.(area := s.area[s.offset + RECORD_HEADER_BYTES + s.pc.done := Raw(s.pc.payload[s.pc.done])],
                   pc := Copying(s.pc.cap, s.pc.payload, s.pc.done + 1));
      assert CopyByte(s, s');
      Append(run, s');
      run' := CopyOn(run + [s']);
      assert run'[|run| - 1] == s;
    }
  }

  /** Stage a payload with an exact reservation. */
  lemma Stage(run: seq<State>, payload: Cells) returns (run': seq<State>)
    requires Run(run) && Last(run).pc.Idle? && Fits(Last(run), |payload|) && |Last(run).area| > 0
    ensures Run(run') && run <= run' && Last(run').pc.Idle? && |Last(run').area| == |Last(run).area|
    ensures Staging(run', |run| - 1, |run'| - 1) && Only(run', |run|, payload)
    ensures run'[|run|].pc == Copying(|payload|, payload, 0)
    ensures var s, s' := Last(run), Last(run');
            s'.offset == Place(s, |payload|) + RecordBytes(|payload|)
            && s'.reservations == s.reservations + 1 && s'.nextIndex == s.nextIndex + 1
            && s'.committed == s.committed[s.nextIndex := Record(Place(s, |payload|), payload, s'.reservations)]
  {
    var s := Last(run);
    RunInv(run, |run| - 1);
    RecordBytesBounds(|payload|);
    var at := Place(s, |payload|);
    var s1 := s.(pc := Copying(|payload|, payload, 0), offset := at,
                 area := s.area[at := SeqWord(2 * s.nextIndex - 1)], reservations := s.reservations + 1);
    assert Reserve(s, s1);
    Append(run, s1);
    var copied := CopyOn(run + [s1]);
    var s2 := Last(copied);
    var s3 := s2.(area := s2.area[s2.offset + 4 := LenWord(|payload|)], pc := Sized(|payload|, payload));
    assert StoreLength(s2, s3);
    Append(copied, s3);
    var s4 := s3.(area := s3.area[s3.offset := SeqWord(2 * s3.nextIndex)],
                  offset := s3.offset + RecordBytes(|payload|), nextIndex := s3.nextIndex + 1, pc := Idle,
                  committed := s3.committed[s3.nextIndex := Record(s3.offset, payload, s3.reservations)]);
    assert Commit(s3, s4);
    Append(copied + [s3], s4);
    run' := copied + [s3] + [s4];
    assert run'[|run| - 1] == s && run'[|run|] == s1;
  }

  /** Payloads whose records take 128 KiB and 256 KiB; four of either fit the smallest segment
      there is, 1 MiB. */
  const SMALL: nat := 131064
  const LARGE: nat := 262136

  lemma RealSizes()
    ensures SHM_PAYLOAD_THRESHOLD <= SMALL < LARGE
    ensures RecordBytes(SMALL) == 131072 && RecordBytes(LARGE) == 262144
    ensures NewArea(RecordBytes(SMALL)) == NewArea(RecordBytes(LARGE)) == SHM_RING_MIN_BYTES == 1048576
  {
    Arith.AlignUpIsRounding(RECORD_HEADER_BYTES + SMALL, SHM_RECORD_ALIGN);
    Arith.AlignUpIsRounding(RECORD_HEADER_BYTES + LARGE, SHM_RECORD_ALIGN);
    Arith.AlignUpIsRounding(SHM_RING_MIN_BYTES, PAGE_SIZE);
  }

  /** A fresh segment sized for payloads of `size` bytes. */
  lemma Fresh(size: nat) returns (run: seq<State>)
    ensures Run(run) && |run| == 1 && |run[0].area| == NewArea(RecordBytes(size))
    ensures run[0].pc.Idle? && run[0].nextIndex == 1 && run[0].committed == map[] && run[0].offset == 0
    ensures run[0].reservations == 0
  {
    run := [PayloadProtocol.State(seq(NewArea(RecordBytes(size)), _ => Raw(0)), 0, 1, Idle, map[], 0)];
  }

  lemma ThreeStaged(small: Cells, large: Cells) returns (r3: seq<State>)
    requires |small| == SMALL && |large| == LARGE
    ensures Run(r3) && Last(r3).pc.Idle? && |Last(r3).area| == NewArea(RecordBytes(SMALL))
    ensures Last(r3).nextIndex == 4 && Last(r3).offset == 655360 && Last(r3).reservations == 3
    ensures Last(r3).committed == map[1 := Record(0, small, 1), 2 := Record(131072, large, 2),
                                      3 := Record(393216, large, 3)]
  {
    RealSizes();
    var r0 := Fresh(SMALL);
    var r1 := Stage(r0, small);
    var r2 := Stage(r1, large);
    r3 := Stage(r2, large);
  }

  /** THREE RESERVATIONS, MIXED SIZES.  The smallest segment there is, 1 MiB: one record of
      128 KiB, then records of 256 KiB.  Record 3 sits at 384 KiB; the third reservation
      after it starts at 256 KiB, and record 3's header is gone. */
  lemma ThirdReservationCanOverwrite() returns (run: seq<State>)
    ensures Run(run) && |Last(run).area| == SHM_RING_MIN_BYTES == NewArea(RecordBytes(SMALL))
    ensures 3 in Last(run).committed && Age(Last(run), 3) == 3 && !HeaderIntact(Last(run), 3)
    ensures forall n | n in Last(run).committed ::
              && |Last(run).committed[n].payload| >= SHM_PAYLOAD_THRESHOLD
              && Fits(Last(run), |Last(run).committed[n].payload|)
  {
    RealSizes();
    var large: Cells := seq(LARGE, _ => 7);
    var r3 := ThreeStaged(seq(SMALL, _ => 7), large);
    var r4 := Stage(r3, large);     // record 4 at 640 KiB
    var r5 := Stage(r4, large);     // record 5 wraps to 0
    run := Stage(r5, large);        // record 6 at 256 KiB, over record 3's header
    StagingDestroysIff(run, |r5| - 1, |run| - 1, 3);
  }

  /** FOUR RESERVATIONS, ONE SIZE.  Four 256 KiB records fill the same segment; the fourth
      reservation after record 1 wraps onto it. */
  lemma FourthReservationCanOverwrite() returns (run: seq<State>)
    ensures Run(run) && |Last(run).area| == SHM_RING_MIN_BYTES == NewArea(RecordBytes(LARGE))
    ensures Uniform(run, RecordBytes(LARGE)) && LARGE >= SHM_PAYLOAD_THRESHOLD
    ensures 1 in Last(run).committed && Age(Last(run), 1) == 4 && !HeaderIntact(Last(run), 1)
  {
    RealSizes();
    var payload: Cells := seq(LARGE, _ => 7);
    var r0 := Fresh(LARGE);
    var r1 := StageSame(r0, payload);
    var r2 := StageSame(r1, payload);
    var r3 := StageSame(r2, payload);
    var r4 := StageSame(r3, payload);
    run := StageSame(r4, payload);
    StagingDestroysIff(run, |r4| - 1, |run| - 1, 1);
    OnlyIsUniform(run, payload);
  }

  lemma OnlyIsUniform(run: seq<State>, payload: Cells)
    requires Only(run, 0, payload)
    ensures Uniform(run, RecordBytes(|payload|))
  {
    RecordBytesBounds(|payload|);
  }

  /** Stage into a segment that has only seen this payload. */
  lemma StageSame(run: seq<State>, payload: Cells) returns (run': seq<State>)
    requires Run(run) && Last(run).pc.Idle? && Fits(Last(run), |payload|) && |Last(run).area| > 0
    requires Only(run, 0, payload)
    ensures Run(run') && run <= run' && Last(run').pc.Idle? && |Last(run').area| == |Last(run).area|
    ensures Staging(run', |run| - 1, |run'| - 1) && Only(run', 0, payload)
    ensures run'[|run|].pc == Copying(|payload|, payload, 0)
    ensures var s, s' := Last(run), Last(run');
            s'.offset == Place(s, |payload|) + RecordBytes(|payload|)
            && s'.reservations == s.reservations + 1 && s'.nextIndex == s.nextIndex + 1
            && s'.committed == s.committed[s.nextIndex := Record(Place(s, |payload|), payload, s'.reservations)]
  {
    run' := Stage(run, payload);
    forall t | 0 <= t < |run'| && !run'[t].pc.Idle?
      ensures run'[t].pc.cap == |payload| && run'[t].pc.payload == payload
    {
      if t < |run| { assert run'[t] == run[t]; }
    }
  }
}
