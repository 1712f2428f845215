/** One segment of a payload ring, written by its owner while readers copy records out.

    The writer's loads and stores are steps; a reader (see PayloadFetch) loads at any
    non-decreasing times.  A segment never changes size: a payload that does not fit four
    times makes the owner open another segment, which ends this segment's run. */
module PayloadProtocol {
  import opened Wire
  import opened Schedule
  import Arith

  /** A byte of the record area.  The 4-byte seq and len words of a record header are held
      whole in the cell of their first byte, until that byte is overwritten by payload. */
  datatype Cell = Raw(b: int) | SeqWord(v: nat) | LenWord(v: nat)

  function RecordBytes(size: nat): nat {
    Arith.AlignUp(RECORD_HEADER_BYTES + size, SHM_RECORD_ALIGN)
  }

  predicate Aligned(v: nat) {
    Arith.AlignUp(v, SHM_RECORD_ALIGN) == v
  }

  lemma RecordBytesBounds(size: nat)
    ensures Aligned(RecordBytes(size))
    ensures RECORD_HEADER_BYTES + size <= RecordBytes(size) < RECORD_HEADER_BYTES + size + SHM_RECORD_ALIGN
  {
    Arith.AlignUpStays(RECORD_HEADER_BYTES + size, SHM_RECORD_ALIGN);
  }

  lemma RecordBytesMonotone(a: nat, b: nat)
    requires a <= b
    ensures RecordBytes(a) <= RecordBytes(b)
  {
    Arith.AlignUpMonotone(RECORD_HEADER_BYTES + a, RECORD_HEADER_BYTES + b, SHM_RECORD_ALIGN);
  }

  /** A committed record; `born` is how many reservations the segment had seen by then. */
  datatype Record = Record(offset: nat, payload: Cells, born: nat)

  datatype Pc =
    | Idle
    | Copying(cap: nat, payload: Cells, done: nat)  // seq is odd, `done` bytes written
    | Sized(cap: nat, payload: Cells)               // payload_len stored

  datatype State = State(
    area: seq<Cell>,
    offset: nat,
    nextIndex: nat,
    pc: Pc,
    // History: committed records by index, and the number of reservations so far.
    committed: map<nat, Record>,
    reservations: nat)

  predicate Fits(s: State, cap: nat) {
    4 * RecordBytes(cap) <= |s.area|
  }

  predicate Init(s: State) {
    && s.offset == 0 && s.nextIndex > 0 && s.pc == Idle && s.committed == map[] && s.reservations == 0
    && forall x | 0 <= x < |s.area| :: s.area[x] == Raw(0)
  }

  /** The cursor after the wrap test: a record never straddles the end of the ring. */
  function Place(s: State, cap: nat): nat {
    if s.offset + RecordBytes(cap) > |s.area| then 0 else s.offset
  }

  /** shm_stage_reserve for at most `cap` bytes, of which `payload` will be written. */
  predicate Reserve(s: State, s': State) {
    && s.pc.Idle? && s.nextIndex > 0 && s'.pc.Copying? && s'.pc.done == 0
    && |s'.pc.payload| <= s'.pc.cap && Fits(s, s'.pc.cap)
    && var at := Place(s, s'.pc.cap);
    && at < |s.area|
    && s' == s.(pc := s'.pc, offset := at, area := s.area[at := SeqWord(2 * s.nextIndex - 1)],
                reservations := s.reservations + 1)
  }

  predicate CopyByte(s: State, s': State) {
    && s.pc.Copying? && s.pc.done < |s.pc.payload|
    && var x := s.offset + RECORD_HEADER_BYTES + s.pc.done;
    && x < |s.area|
    && s' == s.(area := s.area[x := Raw(s.pc.payload[s.pc.done])],
                pc := Copying(s.pc.cap, s.pc.payload, s.pc.done + 1))
  }

  predicate StoreLength(s: State, s': State) {
    && s.pc.Copying? && s.pc.done == |s.pc.payload| && s.offset + 4 < |s.area|
    && s' == s.(area := s.area[s.offset + 4 := LenWord(|s.pc.payload|)], pc := Sized(s.pc.cap, s.pc.payload))
  }

  predicate Commit(s: State, s': State) {
    && s.pc.Sized? && s.offset < |s.area|
    && s' == s.(area := s.area[s.offset := SeqWord(2 * s.nextIndex)],
                offset := s.offset + RecordBytes(|s.pc.payload|),
                nextIndex := s.nextIndex + 1, pc := Idle,
                committed := s.committed[s.nextIndex := Record(s.offset, s.pc.payload, s.reservations)])
  }

  /** The record stays odd and the cursor where it was. */
  predicate Abort(s: State, s': State) {
    !s.pc.Idle? && s' == s.(pc := Idle)
  }

  predicate Next(s: State, s': State) {
    Reserve(s, s') || CopyByte(s, s') || StoreLength(s, s') || Commit(s, s') || Abort(s, s')
  }

  // ----- Invariants -----

  /** Bytes claimed by the reservation under way. */
  function Span(s: State): nat {
    if s.pc.Idle? then 0 else RecordBytes(s.pc.cap)
  }

  /** How far beyond the cursor payload bytes have reached. */
  function Reach(s: State): nat {
    match s.pc
    case Idle => 0
    case Copying(_, _, done) => RECORD_HEADER_BYTES + done
    case Sized(_, payload) => RECORD_HEADER_BYTES + |payload|
  }

  /** Ring geometry: the cursor is aligned and in range, a reservation lies inside the area. */
  predicate GeometryInv(s: State) {
    && s.nextIndex > 0
    && Aligned(s.offset) && s.offset + Span(s) <= |s.area|
    && (!s.pc.Idle? ==>
        && |s.pc.payload| <= s.pc.cap && Fits(s, s.pc.cap) && s.reservations > 0
        && Reach(s) <= RECORD_HEADER_BYTES + |s.pc.payload|
        && s.area[s.offset] == SeqWord(2 * s.nextIndex - 1))
    && (s.pc.Copying? ==> forall i | 0 <= i < s.pc.done ::
          s.area[s.offset + RECORD_HEADER_BYTES + i] == Raw(s.pc.payload[i]))
    && (s.pc.Sized? ==>
        && s.area[s.offset + 4] == LenWord(|s.pc.payload|)
        && forall i | 0 <= i < |s.pc.payload| ::
             s.area[s.offset + RECORD_HEADER_BYTES + i] == Raw(s.pc.payload[i]))
  }

  predicate RecordOk(s: State, n: nat)
    requires n in s.committed
  {
    var r := s.committed[n];
    && 0 < n < s.nextIndex && Aligned(r.offset)
    && 4 * RecordBytes(|r.payload|) <= |s.area|
    && r.offset + RecordBytes(|r.payload|) <= |s.area|
    && 0 < r.born <= s.reservations
  }

  predicate HeaderIntact(s: State, n: nat)
    requires n in s.committed
  {
    s.committed[n].offset < |s.area| && s.area[s.committed[n].offset] == SeqWord(2 * n)
  }

  /** The record's length word and payload are those committed. */
  predicate BodyIntact(s: State, n: nat)
    requires n in s.committed
  {
    var r := s.committed[n];
    && r.offset + RECORD_HEADER_BYTES + |r.payload| <= |s.area|
    && s.area[r.offset + 4] == LenWord(|r.payload|)
    && forall i | 0 <= i < |r.payload| :: s.area[r.offset + RECORD_HEADER_BYTES + i] == Raw(r.payload[i])
  }

  /** While a header is intact so is its body: the cursor is never inside the record, and
      ascending writes reach a header before anything behind it. */
  predicate RecordInv(s: State, n: nat)
    requires n in s.committed
  {
    && RecordOk(s, n)
    && (HeaderIntact(s, n) ==>
        && BodyIntact(s, n)
        && var o := s.committed[n].offset;
        && (s.offset <= o || o + RecordBytes(|s.committed[n].payload|) <= s.offset)
        && (s.offset <= o ==> s.offset + Reach(s) <= o))
  }

  predicate WordInv(s: State) {
    forall x | 0 <= x < |s.area| && s.area[x].SeqWord? && s.area[x].v % 2 == 0 ::
      s.area[x].v / 2 in s.committed && s.committed[s.area[x].v / 2].offset == x
  }

  predicate Inv(s: State) {
    GeometryInv(s) && WordInv(s) && forall n | n in s.committed :: RecordInv(s, n)
  }

  lemma AlignedGap(a: nat, o: nat, size: nat)
    requires Aligned(a) && Aligned(o) && a + RECORD_HEADER_BYTES + size <= o
    ensures a + RecordBytes(size) <= o
  {
    Arith.AlignUpFrom(a, RECORD_HEADER_BYTES + size, SHM_RECORD_ALIGN);
    Arith.AlignUpMonotone(a + RECORD_HEADER_BYTES + size, o, SHM_RECORD_ALIGN);
  }

  lemma GeometryStep(s: State, s': State)
    requires GeometryInv(s) && Next(s, s')
    ensures GeometryInv(s')
  {
    if Reserve(s, s') {
      ReserveGeometry(s, s');
    } else if Commit(s, s') {
      CommitGeometry(s, s');
    } else if !Abort(s, s') {
      WriteGeometry(s, s');
    }
  }

  lemma ReserveGeometry(s: State, s': State)
    requires GeometryInv(s) && Reserve(s, s')
    ensures GeometryInv(s')
  {
    RecordBytesBounds(s'.pc.cap);
  }

  lemma CommitGeometry(s: State, s': State)
    requires GeometryInv(s) && Commit(s, s')
    ensures GeometryInv(s')
  {
    RecordBytesBounds(|s.pc.payload|);
    RecordBytesMonotone(|s.pc.payload|, s.pc.cap);
    Arith.AlignUpFrom(s.offset, RecordBytes(|s.pc.payload|), SHM_RECORD_ALIGN);
  }

  lemma WriteGeometry(s: State, s': State)
    requires GeometryInv(s) && (CopyByte(s, s') || StoreLength(s, s'))
    ensures GeometryInv(s')
  {
    RecordBytesBounds(s.pc.cap);
  }

  lemma WordStep(s: State, s': State)
    requires Inv(s) && Next(s, s')
    ensures WordInv(s')
  {
    assert forall n | n in s.committed :: RecordInv(s, n) && n < s.nextIndex;
  }

  lemma ReserveRecord(s: State, s': State, n: nat)
    requires GeometryInv(s) && Reserve(s, s') && n in s.committed && RecordInv(s, n)
    ensures RecordInv(s', n)
  {
    var r := s.committed[n];
    var at := Place(s, s'.pc.cap);
    RecordBytesBounds(|r.payload|);
    if HeaderIntact(s', n) {
      assert HeaderIntact(s, n) && at != r.offset;
      if at < r.offset { AlignedApart(at, r.offset); }
      HeaderKeepsBody(s, s', n, at);
    }
  }

  /** A store at `at`, outside a record, keeps its body. */
  lemma HeaderKeepsBody(s: State, s': State, n: nat, at: nat)
    requires n in s.committed && n in s'.committed && BodyIntact(s, n) && s'.committed[n] == s.committed[n]
    requires at < |s.area| == |s'.area| && s'.area == s.area[at := s'.area[at]]
    requires var r := s.committed[n];
             at < r.offset || r.offset + RECORD_HEADER_BYTES + |r.payload| <= at
    ensures BodyIntact(s', n)
  {}

  lemma AlignedApart(a: nat, o: nat)
    requires Aligned(a) && Aligned(o) && a < o
    ensures a + SHM_RECORD_ALIGN <= o
  {
    Arith.AlignUpFrom(a, 1, SHM_RECORD_ALIGN);
    Arith.AlignUpMonotone(a + 1, o, SHM_RECORD_ALIGN);
  }

  lemma WriteRecord(s: State, s': State, n: nat)
    requires GeometryInv(s) && (CopyByte(s, s') || StoreLength(s, s')) && n in s.committed && RecordInv(s, n)
    ensures RecordInv(s', n)
  {
    if HeaderIntact(s', n) {
      var r := s.committed[n];
      RecordBytesBounds(|r.payload|);
      WriteMisses(s, s', n);
      if s.offset <= r.offset { StopsShort(s, s', n); }
    }
  }

  lemma WriteMisses(s: State, s': State, n: nat)
    requires GeometryInv(s) && (CopyByte(s, s') || StoreLength(s, s')) && n in s.committed && RecordInv(s, n)
    requires HeaderIntact(s', n)
    ensures HeaderIntact(s, n) && BodyIntact(s', n)
  {
    var r, x := s.committed[n], s.offset + if CopyByte(s, s') then RECORD_HEADER_BYTES + s.pc.done else 4;
    assert s'.area == s.area[x := s'.area[x]] && HeaderIntact(s, n);
    assert x < r.offset || r.offset + RECORD_HEADER_BYTES + |r.payload| <= x;
    HeaderKeepsBody(s, s', n, x);
  }

  lemma StopsShort(s: State, s': State, n: nat)
    requires GeometryInv(s) && (CopyByte(s, s') || StoreLength(s, s')) && n in s.committed && RecordInv(s, n)
    requires HeaderIntact(s, n) && HeaderIntact(s', n) && s.offset <= s.committed[n].offset
    ensures s'.offset + Reach(s') <= s.committed[n].offset
  {}

  lemma CommitRecord(s: State, s': State, n: nat)
    requires Inv(s) && Commit(s, s') && n in s'.committed
    ensures RecordInv(s', n)
  {
    RecordBytesBounds(|s.pc.payload|);
    if n == s.nextIndex {
      RecordBytesMonotone(|s.pc.payload|, s.pc.cap);
    } else {
      assert RecordInv(s, n);
      CommitOther(s, s', n);
    }
  }

  lemma CommitOther(s: State, s': State, n: nat)
    requires GeometryInv(s) && Commit(s, s') && n in s.committed && n != s.nextIndex && RecordInv(s, n)
    ensures RecordInv(s', n)
  {
    var r := s.committed[n];
    RecordBytesBounds(|r.payload|);
    if HeaderIntact(s', n) {
      HeaderKeepsBody(s, s', n, s.offset);
      if s.offset <= r.offset {
        AlignedGap(s.offset, r.offset, |s.pc.payload|);
      }
    }
  }

  lemma StepKeepsRecordInv(s: State, s': State, n: nat)
    requires Inv(s) && Next(s, s') && n in s'.committed
    ensures RecordInv(s', n)
  {
    if Commit(s, s') {
      CommitRecord(s, s', n);
    } else {
      assert RecordInv(s, n);
      if Reserve(s, s') { ReserveRecord(s, s', n); }
      else if !Abort(s, s') { WriteRecord(s, s', n); }
    }
  }

  lemma StepKeepsInv(s: State, s': State)
    requires Inv(s) && Next(s, s')
    ensures Inv(s')
  {
    GeometryStep(s, s');
    WordStep(s, s');
    forall n | n in s'.committed
      ensures RecordInv(s', n)
    {
      StepKeepsRecordInv(s, s', n);
    }
  }

  // ----- Runs -----

  ghost predicate Run(run: seq<State>) {
    && |run| > 0 && Init(run[0])
    && (forall t | 0 < t < |run| :: Linked(run, t))
  }

  predicate Linked(run: seq<State>, t: nat)
    requires 0 < t < |run|
  {
    Next(run[t - 1], run[t])
  }

  lemma {:induction false} RunInv(run: seq<State>, t: nat)
    requires Run(run) && t < |run|
    ensures Inv(run[t])
  {
    if t > 0 {
      RunInv(run, t - 1);
      assert Linked(run, t);
      StepKeepsInv(run[t - 1], run[t]);
    }
  }

  /** Committed records stay on record, and an overwritten header never comes back: its
      index is never used again. */
  lemma {:induction false} RunKeepsRecords(run: seq<State>, t: nat, u: nat, n: nat)
    requires Run(run) && t <= u < |run| && n in run[t].committed
    ensures n in run[u].committed && run[u].committed[n] == run[t].committed[n]
    ensures |run[u].area| == |run[t].area| && run[t].reservations <= run[u].reservations
    ensures HeaderIntact(run[u], n) ==> HeaderIntact(run[t], n)
    decreases u
  {
    if t < u {
      RunKeepsRecords(run, t, u - 1, n);
      RunInv(run, u - 1);
      assert Linked(run, u) && RecordInv(run[u - 1], n);
      StepKeepsRecord(run[u - 1], run[u], n);
    }
  }

  lemma StepKeepsRecord(s: State, s': State, n: nat)
    requires GeometryInv(s) && n in s.committed && RecordOk(s, n) && Next(s, s')
    ensures n in s'.committed && s'.committed[n] == s.committed[n]
    ensures |s'.area| == |s.area| && s.reservations <= s'.reservations
    ensures HeaderIntact(s', n) ==> HeaderIntact(s, n)
  {}

  /** Reservations made since record n was committed. */
  function Age(s: State, n: nat): int
    requires n in s.committed
  {
    s.reservations - s.committed[n].born
  }

  // ----- Survival, any mix of sizes: two more reservations -----

  function End(r: Record): nat { r.offset + RecordBytes(|r.payload|) }

  /** Where the cursor can be, up to two reservations after record n. */
  predicate Near(s: State, n: nat)
    requires n in s.committed
  {
    var r, a, quarter := s.committed[n], s.offset, |s.area| / 4;
    && HeaderIntact(s, n)
    && (Age(s, n) == 0 ==> s.pc.Idle? && a == End(r))
    && (Age(s, n) == 1 ==> (End(r) <= a && a + Span(s) <= End(r) + quarter)
                           || (a + Span(s) <= quarter && 2 * quarter <= r.offset))
    && (Age(s, n) == 2 ==> End(r) <= a || a + Span(s) <= r.offset)
  }

  ghost predicate SurvivalInv(s: State) {
    forall n | n in s.committed && Age(s, n) <= 2 :: Near(s, n)
  }

  lemma ReserveNear(s: State, s': State, n: nat)
    requires GeometryInv(s) && Reserve(s, s') && n in s.committed && RecordOk(s, n) && Near(s, n) && Age(s', n) <= 2
    ensures Near(s', n)
  {
    RecordBytesBounds(|s.committed[n].payload|);
    RecordBytesBounds(s'.pc.cap);
  }

  lemma WriteNear(s: State, s': State, n: nat)
    requires GeometryInv(s) && (CopyByte(s, s') || StoreLength(s, s'))
    requires n in s.committed && RecordOk(s, n) && Near(s, n) && Age(s, n) <= 2
    ensures Near(s', n)
  {
    RecordBytesBounds(|s.committed[n].payload|);
    RecordBytesBounds(s.pc.cap);
  }

  lemma CommitNear(s: State, s': State, n: nat)
    requires GeometryInv(s) && Commit(s, s')
    requires n in s.committed && RecordOk(s, n) && Near(s, n) && Age(s, n) <= 2
    ensures n != s.nextIndex && Near(s', n)
  {
    RecordBytesBounds(|s.committed[n].payload|);
    RecordBytesBounds(|s.pc.payload|);
    RecordBytesMonotone(|s.pc.payload|, s.pc.cap);
  }

  lemma SurvivalStep(s: State, s': State, n: nat)
    requires Inv(s) && SurvivalInv(s) && Next(s, s') && n in s'.committed && Age(s', n) <= 2
    ensures Near(s', n)
  {
    if n in s.committed {
      assert RecordInv(s, n) && RecordOk(s, n) && n != s.nextIndex && s'.committed[n] == s.committed[n];
      assert Near(s, n);
      if Reserve(s, s') { ReserveNear(s, s', n); }
      else if Commit(s, s') { CommitNear(s, s', n); }
      else if !Abort(s, s') { WriteNear(s, s', n); }
    }
  }

  lemma {:induction false} RunSurvival(run: seq<State>, t: nat)
    requires Run(run) && t < |run|
    ensures SurvivalInv(run[t])
  {
    if t > 0 {
      RunSurvival(run, t - 1);
      RunInv(run, t - 1);
      assert Linked(run, t);
      forall n | n in run[t].committed && Age(run[t], n) <= 2
        ensures Near(run[t], n)
      {
        SurvivalStep(run[t - 1], run[t], n);
      }
    }
  }

  // ----- Survival, one record size: three more reservations -----

  /** Every reservation and every commit of the run takes the same number of bytes. */
  ghost predicate Uniform(run: seq<State>, size: nat) {
    size > 0 && forall t | 0 <= t < |run| :: OneSize(run[t], size)
  }

  predicate OneSize(s: State, size: nat) {
    !s.pc.Idle? ==> RecordBytes(s.pc.cap) == size && RecordBytes(|s.pc.payload|) == size
  }

  /** In a segment of one record size, headers stay headers. */
  predicate GridInv(s: State, size: nat)
    requires size > 0
  {
    && Arith.Residue(s.offset, size) == 0
    && forall n | n in s.committed ::
         && Arith.Residue(s.committed[n].offset, size) == 0 && RecordBytes(|s.committed[n].payload|) == size
         && s.committed[n].offset < |s.area| && s.area[s.committed[n].offset].SeqWord?
  }

  lemma OffGrid(a: nat, d: nat, size: nat)
    requires size > 0 && Arith.Residue(a, size) == 0 && 0 < d < size
    ensures Arith.Residue(a + d, size) != 0
  {
    Arith.ResidueStep(a, d, size);
  }

  lemma NextOnGrid(a: nat, size: nat)
    requires size > 0 && Arith.Residue(a, size) == 0
    ensures Arith.Residue(a + size, size) == 0
  {
    Arith.ResidueStep(a, size, size);
  }

  lemma GridStep(s: State, s': State, size: nat)
    requires size > 0 && Inv(s) && GridInv(s, size) && OneSize(s, size) && Next(s, s') && OneSize(s', size)
    ensures GridInv(s', size)
  {
    if CopyByte(s, s') {
      RecordBytesBounds(|s.pc.payload|);
      OffGrid(s.offset, RECORD_HEADER_BYTES + s.pc.done, size);
      WriteKeepsGrid(s, s', size, s.offset + RECORD_HEADER_BYTES + s.pc.done);
    } else if StoreLength(s, s') {
      RecordBytesBounds(|s.pc.payload|);
      OffGrid(s.offset, 4, size);
      WriteKeepsGrid(s, s', size, s.offset + 4);
    } else if Commit(s, s') {
      CommitKeepsGrid(s, s', size);
    } else if Reserve(s, s') {
      ReserveKeepsGrid(s, s', size);
    }
  }

  lemma WriteKeepsGrid(s: State, s': State, size: nat, x: nat)
    requires size > 0 && GridInv(s, size) && Arith.Residue(x, size) != 0 && x < |s.area|
    requires s'.committed == s.committed && s'.offset == s.offset
    requires |s'.area| == |s.area| && s'.area == s.area[x := s'.area[x]]
    ensures GridInv(s', size)
  {}

  lemma CommitKeepsGrid(s: State, s': State, size: nat)
    requires size > 0 && GridInv(s, size) && OneSize(s, size) && Commit(s, s')
    ensures GridInv(s', size)
  {
    NextOnGrid(s.offset, size);
  }

  lemma ReserveKeepsGrid(s: State, s': State, size: nat)
    requires size > 0 && GridInv(s, size) && Reserve(s, s')
    ensures GridInv(s', size)
  {
    assert Arith.Residue(0, size) == 0;
  }

  lemma {:induction false} RunGrid(run: seq<State>, t: nat, size: nat)
    requires Run(run) && t < |run| && Uniform(run, size)
    ensures GridInv(run[t], size)
  {
    if t > 0 {
      RunGrid(run, t - 1, size);
      RunInv(run, t - 1);
      assert Linked(run, t) && OneSize(run[t - 1], size) && OneSize(run[t], size);
      GridStep(run[t - 1], run[t], size);
    }
  }

  /** Bytes of the area that hold whole records of one size. */
  function GridEnd(areaBytes: nat, size: nat): nat
    requires size > 0
  {
    areaBytes - Arith.Residue(areaBytes, size)
  }

  /** The bytes of at most three records. */
  function Records(count: int, size: nat): nat
    requires count <= 3
  {
    if count <= 0 then 0 else if count == 1 then size else if count == 2 then 2 * size else 3 * size
  }

  /** The cursor, unrolled past the end when it wrapped, is at most three records on. */
  predicate NearGrid(s: State, n: nat, size: nat, wrapped: bool)
    requires n in s.committed && size > 0 && Age(s, n) <= 3
  {
    var e := End(s.committed[n]);
    var a := s.offset + if wrapped then GridEnd(|s.area|, size) else 0;
    && HeaderIntact(s, n)
    && (Age(s, n) == 0 ==> s.pc.Idle? && s.offset == e && !wrapped)
    && e <= a && a + Span(s) <= e + Records(Age(s, n), size)
  }

  ghost predicate GridSurvivalInv(s: State, size: nat)
    requires size > 0
  {
    forall n | n in s.committed && Age(s, n) <= 3 :: NearGrid(s, n, size, false) || NearGrid(s, n, size, true)
  }

  /** A full grid's end is where the next record of that size no longer fits. */
  lemma GridWraps(s: State, size: nat)
    requires size > 0 && Arith.Residue(s.offset, size) == 0 && s.offset <= |s.area| < s.offset + size
    ensures s.offset == GridEnd(|s.area|, size)
  {
    Arith.ResidueFrom(s.offset, |s.area| - s.offset, size);
  }

  lemma GridHoldsFour(s: State, size: nat)
    requires size > 0 && 4 * size <= |s.area|
    ensures 4 * size <= GridEnd(|s.area|, size) <= |s.area| < GridEnd(|s.area|, size) + size
  {
    var a := |s.area|;
    assert Arith.Residue(a, size) == Arith.Residue(a - size, size);
    assert Arith.Residue(a - size, size) == Arith.Residue(a - 2 * size, size);
    assert Arith.Residue(a - 2 * size, size) == Arith.Residue(a - 3 * size, size);
    assert Arith.Residue(a - 3 * size, size) == Arith.Residue(a - 4 * size, size);
  }

  /** Where a reservation lands relative to a record of age `age` at o. */
  lemma GridPlaces(o: nat, size: nat, g: nat, areaBytes: nat, offset: nat, age: nat, wrapped: bool)
    requires 4 * size <= g <= areaBytes < g + size && age <= 2 && o + size <= areaBytes
    requires o + size <= offset + (if wrapped then g else 0) <= o + size + Records(age, size)
    requires offset + size > areaBytes ==> offset == g
    ensures offset + size > areaBytes ==> !wrapped && o != 0
    ensures offset + size <= areaBytes ==> offset != o
  {}

  lemma GridReserve(s: State, s': State, n: nat, size: nat, wrapped: bool)
    requires size > 0 && GeometryInv(s) && GridInv(s, size) && Reserve(s, s') && OneSize(s', size)
    requires n in s.committed && RecordOk(s, n) && Age(s', n) <= 3 && NearGrid(s, n, size, wrapped)
    ensures NearGrid(s', n, size, wrapped) || NearGrid(s', n, size, true)
  {
    GridHoldsFour(s, size);
    if s.offset + size > |s.area| {
      GridWraps(s, size);
    }
    GridPlaces(s.committed[n].offset, size, GridEnd(|s.area|, size), |s.area|, s.offset, Age(s, n), wrapped);
    var wrapped' := wrapped || s.offset + size > |s.area|;
    assert NearGrid(s', n, size, wrapped');
  }

  /** A record of the open reservation, `a` being its start unrolled past the end of the
      grid, does not reach the header of a record at most three older. */
  lemma MissesHeader(o: nat, size: nat, a: nat, g: nat, offset: nat, age: nat, x: nat)
    requires 4 * size <= g && age <= 3 && o + size <= a && a + size <= o + size + Records(age, size)
    requires a == offset || a == offset + g
    requires offset <= x < offset + size
    ensures x != o
  {}

  lemma GridWrite(s: State, s': State, n: nat, size: nat, wrapped: bool)
    requires size > 0 && GeometryInv(s) && GridInv(s, size) && (CopyByte(s, s') || StoreLength(s, s')) && OneSize(s, size)
    requires n in s.committed && RecordOk(s, n) && Age(s, n) <= 3 && NearGrid(s, n, size, wrapped)
    ensures NearGrid(s', n, size, wrapped)
  {
    GridHoldsFour(s, size);
    RecordBytesBounds(|s.pc.payload|);
    var x := s.offset + if CopyByte(s, s') then RECORD_HEADER_BYTES + s.pc.done else 4;
    MissesHeader(s.committed[n].offset, size, s.offset + if wrapped then GridEnd(|s.area|, size) else 0,
                 GridEnd(|s.area|, size), s.offset, Age(s, n), x);
    WriteKeepsNear(s, s', n, size, wrapped, x);
  }

  lemma WriteKeepsNear(s: State, s': State, n: nat, size: nat, wrapped: bool, x: nat)
    requires size > 0 && n in s.committed && Age(s, n) <= 3 && NearGrid(s, n, size, wrapped) && x != s.committed[n].offset
    requires s'.committed == s.committed && s'.offset == s.offset && s'.reservations == s.reservations
    requires |s'.area| == |s.area| && x < |s.area| && s'.area == s.area[x := s'.area[x]]
    requires Span(s') == Span(s) && !s.pc.Idle? && !s'.pc.Idle?
    ensures NearGrid(s', n, size, wrapped)
  {}

  lemma GridSettle(s: State, s': State, n: nat, size: nat, wrapped: bool)
    requires size > 0 && GeometryInv(s) && GridInv(s, size) && (Commit(s, s') || Abort(s, s')) && OneSize(s, size)
    requires n in s.committed && RecordOk(s, n) && Age(s, n) <= 3 && NearGrid(s, n, size, wrapped)
    ensures n != s.nextIndex && NearGrid(s', n, size, wrapped)
  {
    GridHoldsFour(s, size);
    assert GridEnd(|s'.area|, size) == GridEnd(|s.area|, size);
  }

  lemma {:induction false} RunGridSurvival(run: seq<State>, t: nat, size: nat)
    requires Run(run) && t < |run| && Uniform(run, size)
    ensures GridSurvivalInv(run[t], size)
  {
    if t > 0 {
      RunGridSurvival(run, t - 1, size);
      RunGrid(run, t - 1, size);
      RunInv(run, t - 1);
      assert Linked(run, t) && OneSize(run[t - 1], size) && OneSize(run[t], size);
      forall n | n in run[t].committed && Age(run[t], n) <= 3
        ensures NearGrid(run[t], n, size, false) || NearGrid(run[t], n, size, true)
      {
        GridSurvivalStep(run[t - 1], run[t], n, size);
      }
    }
  }

  lemma GridSurvivalStep(s: State, s': State, n: nat, size: nat)
    requires size > 0 && Inv(s) && GridInv(s, size) && GridSurvivalInv(s, size) && Next(s, s')
    requires OneSize(s, size) && OneSize(s', size) && n in s'.committed && Age(s', n) <= 3
    ensures NearGrid(s', n, size, false) || NearGrid(s', n, size, true)
  {
    if n in s.committed {
      assert RecordInv(s, n) && RecordOk(s, n);
      var wrapped := !NearGrid(s, n, size, false);
      if Reserve(s, s') { GridReserve(s, s', n, size, wrapped); }
      else if CopyByte(s, s') || StoreLength(s, s') { GridWrite(s, s', n, size, wrapped); }
      else { GridSettle(s, s', n, size, wrapped); }
    }
  }

  /** SURVIVAL BOUND.  A committed record is intact through the next two reservations of its
      segment whatever their sizes and outcomes, and through the next three when the segment
      only ever sees one record size. */
  lemma RecordSurvives(run: seq<State>, t: nat, n: nat, size: nat)
    requires Run(run) && t < |run| && n in run[t].committed
    requires Age(run[t], n) <= 2 || (Uniform(run, size) && Age(run[t], n) <= 3)
    ensures HeaderIntact(run[t], n) && BodyIntact(run[t], n)
  {
    RunInv(run, t);
    assert RecordInv(run[t], n);
    if Age(run[t], n) <= 2 {
      RunSurvival(run, t);
      assert Near(run[t], n);
    } else {
      RunGridSurvival(run, t, size);
    }
  }

  /** A run goes on with any step of its last state. */
  lemma Append(run: seq<State>, s: State)
    requires Run(run) && Next(Last(run), s)
    ensures Run(run + [s])
  {
    var run' := run + [s];
    forall t | 0 < t < |run'|
      ensures Linked(run', t)
    {
      if t < |run| { assert Linked(run, t); }
    }
  }
}
