/** ShmRingWriter: the owner's code over its mapped segment, and the send and receive ends
    of transport.cpp that use it.

    `run` is the history of the current segment, which is what other processes get to read:
    every store these methods make appends the step of PayloadProtocol it is. */
module ShmRing {
  import opened Wire
  import opened Schedule
  import opened PayloadProtocol
  import opened PayloadFetch
  import Arith

  const SHM_RING_MIN_BYTES := 1024 * 1024
  const PAGE_SIZE := 4096
  const UINT32_MAX := 0xFFFF_FFFF

  /** The area of a new segment: four of the largest record, at least the floor, in pages. */
  function NewArea(recordBytes: nat): nat {
    Arith.AlignUp(if 4 * recordBytes < SHM_RING_MIN_BYTES then SHM_RING_MIN_BYTES else 4 * recordBytes, PAGE_SIZE)
  }

  lemma NewAreaFits(recordBytes: nat)
    ensures 4 * recordBytes <= NewArea(recordBytes) && SHM_RING_MIN_BYTES <= NewArea(recordBytes)
  {}

  class ShmRingWriter {
    var area: array<Cell>
    var mapped: bool
    var segmentId: nat
    var nextOffset: nat
    var nextIndex: nat
    var reservedCap: nat
    const ownerPid: int
    const ownerId: int
    var run: seq<State>

    ghost predicate Valid()
      reads this, area
    {
      && nextIndex > 0
      && (mapped ==> Run(run) && Matches(Last(run)))
    }

    ghost predicate Matches(s: State)
      reads this, area
    {
      && area[..] == s.area && nextOffset == s.offset && nextIndex == s.nextIndex
      && (!s.pc.Idle? ==> reservedCap == s.pc.cap)
    }

    /** No reservation is open. */
    ghost predicate Quiet()
      reads this
    {
      mapped ==> |run| > 0 && Last(run).pc.Idle?
    }

    constructor (ownerPid: int, ownerId: int)
      ensures Valid() && Quiet() && !mapped && segmentId == 0 && nextIndex == 1
      ensures fresh(area) && this.ownerPid == ownerPid && this.ownerId == ownerId
    {
      this.ownerPid, this.ownerId := ownerPid, ownerId;
      area := new Cell[0];
      mapped, segmentId, nextOffset, nextIndex, reservedCap, run := false, 0, 0, 1, 0, [];
    }

    /** create_segment: a larger segment under the next id; failure changes nothing. */
    method CreateSegment(recordAreaBytes: nat, available: bool) returns (ok: bool)
      requires Valid() && Quiet()
      modifies this
      ensures Valid() && Quiet() && ok == available && nextIndex == old(nextIndex)
      ensures !ok ==> unchanged(this)
      ensures ok ==> mapped && fresh(area) && area.Length == recordAreaBytes && segmentId == old(segmentId) + 1
      ensures ok ==> |run| == 1 && nextOffset == 0
    {
      if !available {
        return false;
      }
      area := new Cell[recordAreaBytes](_ => Raw(0));
      mapped, segmentId, nextOffset := true, segmentId + 1, 0;
      run := [PayloadProtocol.State(area[..], 0, nextIndex, Idle, map[], 0)];
      ok := true;
    }

    /** The size can be represented, and the segment holds four such records or can be replaced. */
    predicate CanStage(size: nat, available: bool, disabled: bool)
      reads this
    {
      size <= UINT32_MAX && !disabled && (available || (mapped && 4 * RecordBytes(size) <= area.Length))
    }

    /** shm_stage_reserve.  `payload` is what the caller will go on to write. */
    method StageReserve(maxPayloadSize: nat, available: bool, disabled: bool, payload: Cells) returns (ok: bool)
      requires Valid() && Quiet() && |payload| <= maxPayloadSize
      modifies this, area
      ensures Valid() && nextIndex == old(nextIndex)
      ensures ok <==> old(CanStage(maxPayloadSize, available, disabled))
      ensures !ok ==> Quiet() && unchanged(this) && unchanged(area)
      ensures ok ==> mapped && Last(run).pc == Copying(maxPayloadSize, payload, 0)
      ensures ok ==> if old(mapped) && 4 * RecordBytes(maxPayloadSize) <= old(area.Length)
                     then area == old(area) && segmentId == old(segmentId)
                          && Extended(old(run), run) && Last(run).committed == old(Last(run)).committed
                          && Last(run).reservations == old(Last(run)).reservations + 1
                     else fresh(area) && segmentId == old(segmentId) + 1 && Last(run).committed == map[]
                          && area.Length == NewArea(RecordBytes(maxPayloadSize))
    {
      if maxPayloadSize > UINT32_MAX || disabled {
        return false;
      }
      var recordBytes := RecordBytes(maxPayloadSize);
      if !mapped || recordBytes * 4 > area.Length {
        NewAreaFits(recordBytes);
        var created := CreateSegment(NewArea(recordBytes), available);
        if !created {
          return false;
        }
      }
      OpenRecord(maxPayloadSize, payload);
      ok := true;
    }

    /** The record's header, odd, at the cursor or back at the start. */
    method OpenRecord(maxPayloadSize: nat, payload: Cells)
      requires Valid() && mapped && Quiet() && |payload| <= maxPayloadSize && Fits(Last(run), maxPayloadSize)
      modifies this`run, this`reservedCap, this`nextOffset, area
      ensures Valid() && Extended(old(run), run) && nextOffset == Place(old(Last(run)), maxPayloadSize)
      ensures Last(run).pc == Copying(maxPayloadSize, payload, 0)
      ensures Last(run).committed == old(Last(run)).committed
      ensures Last(run).reservations == old(Last(run)).reservations + 1
    {
      var s := Last(run);
      RunInv(run, |run| - 1);
      RecordBytesBounds(maxPayloadSize);
      if nextOffset + RecordBytes(maxPayloadSize) > area.Length {
        nextOffset := 0;
      }
      area[nextOffset] := SeqWord(2 * nextIndex - 1);
      reservedCap := maxPayloadSize;
      var s' := s.(pc := Copying(maxPayloadSize, payload, 0), offset := nextOffset,
                         area := s.area[nextOffset := SeqWord(2 * s.nextIndex - 1)], reservations := s.reservations + 1);
      assert Reserve(s, s');
      Append(run, s');
      run := run + [s'];
    }

    /** The caller's next byte, the i-th, into the reserved record. */
    method Put(i: nat, b: int)
      requires Valid() && mapped && Last(run).pc.Copying? && i == Last(run).pc.done
      requires i < |Last(run).pc.payload| && Last(run).pc.payload[i] == b
      modifies this`run, area
      ensures Valid() && Extended(old(run), run)
      ensures Last(run).pc == old(Last(run)).pc.(done := i + 1)
      ensures Last(run).committed == old(Last(run)).committed && Last(run).reservations == old(Last(run)).reservations
    {
      var s := Last(run);
      RunInv(run, |run| - 1);
      RecordBytesBounds(s.pc.cap);
      var x := nextOffset + RECORD_HEADER_BYTES + i;
      area[x] := Raw(b);
      var s' := s.(area := s.area[x := Raw(b)], pc := s.pc.(done := i + 1));
      assert CopyByte(s, s');
      Append(run, s');
      run := run + [s'];
    }

    /** The descriptor points readers at this owner's current segment. */
    predicate PointsHere(desc: Descriptor)
      reads this
    {
      desc.segmentId == segmentId && desc.ownerPid == ownerPid && desc.ownerId == ownerId
    }

    /** shm_stage_commit.  Overrunning the reservation aborts it. */
    method StageCommit(payloadSize: nat) returns (ok: bool, desc: Descriptor)
      requires Valid() && mapped && Last(run).pc.Copying?
      requires payloadSize <= reservedCap ==>
                 payloadSize == Last(run).pc.done == |Last(run).pc.payload|
      modifies this`run, this`reservedCap, this`nextOffset, this`nextIndex, area
      ensures Valid() && Quiet() && ok == (payloadSize <= old(reservedCap))
      ensures old(run) < run && Last(run).reservations == old(Last(run)).reservations
      ensures !ok ==> nextIndex == old(nextIndex) && nextOffset == old(nextOffset)
                      && Last(run).committed == old(Last(run)).committed
      ensures ok ==> nextIndex == old(nextIndex) + 1
                     && nextOffset == old(nextOffset) + RecordBytes(payloadSize)
                     && desc.seqValue == 2 * old(nextIndex) && PointsHere(desc)
                     && Genuine(Last(run), desc)
                     && Last(run).committed == old(Last(run)).committed[old(nextIndex) :=
                          Record(old(nextOffset), old(Last(run)).pc.payload, old(Last(run)).reservations)]
    {
      desc := Descriptor(0, 0, 0, 0, 0, 0);
      if payloadSize > reservedCap {
        StageAbort();
        return false, desc;
      }
      StoreLen(payloadSize);
      desc := PublishRecord(payloadSize);
      ok := true;
    }

    method StoreLen(payloadSize: nat)
      requires Valid() && mapped && Last(run).pc.Copying?
      requires payloadSize == Last(run).pc.done == |Last(run).pc.payload| && payloadSize <= reservedCap
      modifies this`run, area
      ensures Valid() && Extended(old(run), run)
      ensures Last(run).pc == Sized(old(Last(run)).pc.cap, old(Last(run)).pc.payload)
      ensures Last(run).committed == old(Last(run)).committed && Last(run).reservations == old(Last(run)).reservations
    {
      var s := Last(run);
      RunInv(run, |run| - 1);
      RecordBytesBounds(s.pc.cap);
      area[nextOffset + 4] := LenWord(payloadSize);
      var s1 := s.(area := s.area[s.offset + 4 := LenWord(|s.pc.payload|)], pc := Sized(s.pc.cap, s.pc.payload));
      assert StoreLength(s, s1);
      Append(run, s1);
      run := run + [s1];
    }

    /** Make the record's seq even and move the cursor past it. */
    method PublishRecord(payloadSize: nat) returns (desc: Descriptor)
      requires Valid() && mapped && Last(run).pc.Sized? && payloadSize == |Last(run).pc.payload|
      modifies this`run, this`reservedCap, this`nextOffset, this`nextIndex, area
      ensures Valid() && Quiet() && Extended(old(run), run)
      ensures nextIndex == old(nextIndex) + 1 && nextOffset == old(nextOffset) + RecordBytes(payloadSize)
      ensures desc == Descriptor(segmentId, old(nextOffset), 2 * old(nextIndex), payloadSize, ownerPid, ownerId)
      ensures Last(run).reservations == old(Last(run)).reservations
      ensures Last(run).committed == old(Last(run)).committed[old(nextIndex) :=
                Record(old(nextOffset), old(Last(run)).pc.payload, old(Last(run)).reservations)]
    {
      var s1 := Last(run);
      RunInv(run, |run| - 1);
      RecordBytesBounds(s1.pc.cap);
      area[nextOffset] := SeqWord(2 * nextIndex);
      desc := Descriptor(segmentId, nextOffset, 2 * nextIndex, payloadSize, ownerPid, ownerId);
      nextOffset := nextOffset + RecordBytes(payloadSize);
      nextIndex := nextIndex + 1;
      reservedCap := 0;
      var s2 := s1.(area := s1.area[s1.offset := SeqWord(2 * s1.nextIndex)],
                          offset := s1.offset + RecordBytes(|s1.pc.payload|), nextIndex := s1.nextIndex + 1, pc := Idle,
                          committed := s1.committed[s1.nextIndex := Record(s1.offset, s1.pc.payload, s1.reservations)]);
      assert Commit(s1, s2);
      Append(run, s2);
      run := run + [s2];
    }

    /** shm_stage_abort: the record stays odd, the cursor stays put. */
    method StageAbort()
      requires Valid() && mapped && !Last(run).pc.Idle?
      modifies this`run, this`reservedCap
      ensures Valid() && Quiet() && Extended(old(run), run)
      ensures Last(run) == old(Last(run)).(pc := Idle)
    {
      reservedCap := 0;
      var s := Last(run);
      assert Abort(s, s.(pc := Idle));
      Append(run, s.(pc := Idle));
      run := run + [s.(pc := Idle)];
    }

    /** shm_stage_payload: reserve, copy, commit. */
    method StagePayload(payload: Cells, available: bool, disabled: bool) returns (ok: bool, desc: Descriptor)
      requires Valid() && Quiet()
      modifies this, area
      ensures Valid() && Quiet() && (ok <==> old(CanStage(|payload|, available, disabled)))
      ensures !ok ==> unchanged(this) && unchanged(area)
      ensures ok ==> mapped && nextIndex == old(nextIndex) + 1
                     && desc.seqValue == 2 * old(nextIndex) && PointsHere(desc)
                     && Genuine(Last(run), desc) && Last(run).committed[old(nextIndex)].payload == payload
                     && Last(run).committed[old(nextIndex)].born == Last(run).reservations
      ensures ok && segmentId == old(segmentId) ==>
                old(mapped) && old(run) < run && Last(run).reservations == old(Last(run)).reservations + 1
                && area == old(area)
      ensures ok ==> if old(mapped && 4 * RecordBytes(|payload|) <= area.Length) then segmentId == old(segmentId)
                     else segmentId == old(segmentId) + 1 && fresh(area) && area.Length == NewArea(RecordBytes(|payload|))
    {
      desc := Descriptor(0, 0, 0, 0, 0, 0);
      ok := StageReserve(|payload|, available, disabled, payload);
      if !ok {
        return;
      }
      ghost var reserved, a, id := run, area, segmentId;
      for i := 0 to |payload|
        invariant Valid() && mapped && reserved <= run && area == a && segmentId == id
        invariant nextIndex == old(nextIndex) && reservedCap == |payload|
        invariant Last(run).pc == Copying(|payload|, payload, i)
        invariant Last(run).committed == Last(reserved).committed && Last(run).reservations == Last(reserved).reservations
      {
        Put(i, payload[i]);
      }
      ok, desc := StageCommit(|payload|);
    }
  }

  predicate Extended(before: seq<State>, after: seq<State>) {
    before <= after && |after| == |before| + 1
  }
}
