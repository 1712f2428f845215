/** shm_fetch_payload: copying a record out of a ring its owner may be overwriting. */
module PayloadFetch {
  import opened Wire
  import opened Schedule
  import opened PayloadProtocol
  import Arith

  /** ShmPayloadDescriptor */
  datatype Descriptor = Descriptor(
    segmentId: int, offset: int, seqValue: int, payloadSize: int, ownerPid: int, ownerId: int)

  function EncodeDescriptor(d: Descriptor): (c: Cells)
    ensures |c| == DESCRIPTOR_BYTES
  {
    [d.segmentId, 0, 0, 0, 0, 0, 0, 0] + [d.offset, 0, 0, 0, 0, 0, 0, 0]
    + [d.seqValue, 0, 0, 0] + [d.payloadSize, 0, 0, 0] + [d.ownerPid, 0, 0, 0] + [d.ownerId, 0, 0, 0]
  }

  function DecodeDescriptor(c: Cells): Descriptor
    requires |c| == DESCRIPTOR_BYTES
  {
    Descriptor(c[0], c[8], c[16], c[20], c[24], c[28])
  }

  lemma DescriptorRoundTrip(d: Descriptor)
    ensures DecodeDescriptor(EncodeDescriptor(d)) == d
  {}

  /** What loads return where the word they expect has been overwritten is anybody's guess;
      `alias` makes that guess. */
  type Alias = Cell -> int

  function LoadSeq(alias: Alias, c: Cell): int { if c.SeqWord? then c.v else alias(c) }

  function LoadLen(alias: Alias, c: Cell): int { if c.LenWord? then c.v else alias(c) }

  function LoadByte(alias: Alias, c: Cell): int { if c.Raw? then c.b else alias(c) }

  /** No overwritten header word reads as `word`. */
  ghost predicate NeverAliases(alias: Alias, word: int) {
    forall c: Cell :: !c.SeqWord? ==> alias(c) != word
  }

  /** The descriptor of a record this segment did commit. */
  predicate Genuine(s: State, d: Descriptor) {
    && d.seqValue > 0 && d.seqValue % 2 == 0 && d.seqValue / 2 in s.committed
    && var r := s.committed[d.seqValue / 2];
    && d.offset == r.offset && d.payloadSize == |r.payload|
  }

  /** Why an equal seq word means an intact header: overwritten words never read as equal,
      or the segment has one record size and headers are only ever replaced by headers. */
  ghost predicate HeaderTrusted(run: seq<State>, alias: Alias, d: Descriptor, size: nat) {
    NeverAliases(alias, d.seqValue) || Uniform(run, size)
  }

  ghost predicate LoadedAt(run: seq<State>, alias: Alias, t: nat, x: nat, b: int) {
    t < |run| && x < |run[t].area| && LoadByte(alias, run[t].area[x]) == b
  }

  ghost predicate LoadedBetween(run: seq<State>, alias: Alias, a: nat, b: nat, x: nat, v: int) {
    exists t :: a <= t <= b && LoadedAt(run, alias, t, x, v)
  }

  ghost predicate BytesLoaded(run: seq<State>, alias: Alias, a: nat, b: nat, from: nat, bytes: Cells) {
    forall i | 0 <= i < |bytes| :: LoadedBetween(run, alias, a, b, from + i, bytes[i])
  }

  lemma LoadsLast(run: seq<State>, alias: Alias, a: nat, b: nat, a': nat, b': nat, from: nat, bytes: Cells)
    requires BytesLoaded(run, alias, a, b, from, bytes) && a' <= a && b <= b'
    ensures BytesLoaded(run, alias, a', b', from, bytes)
  {
    forall i | 0 <= i < |bytes|
      ensures LoadedBetween(run, alias, a', b', from + i, bytes[i])
    {
      assert LoadedBetween(run, alias, a, b, from + i, bytes[i]);
      var t :| a <= t <= b && LoadedAt(run, alias, t, from + i, bytes[i]);
    }
  }

  lemma AreaSize(run: seq<State>, t: nat)
    requires Run(run) && t < |run|
    ensures |run[t].area| == |run[0].area|
  {
    if t > 0 {
      AreaSize(run, t - 1);
      assert Linked(run, t);
    }
  }

  /** An intact header at the end of a copy vouches for every load made before. */
  lemma IntactUntil(run: seq<State>, start: nat, t: nat, now: nat, n: nat)
    requires Run(run) && start <= t <= now < |run| && n in run[start].committed
    requires n in run[now].committed && HeaderIntact(run[now], n)
    ensures n in run[t].committed && run[t].committed[n] == run[start].committed[n]
    ensures HeaderIntact(run[t], n) && BodyIntact(run[t], n)
  {
    RunKeepsRecords(run, start, t, n);
    RunKeepsRecords(run, t, now, n);
    RunInv(run, t);
    assert RecordInv(run[t], n);
  }

  lemma IntactLoads(run: seq<State>, alias: Alias, start: nat, now: nat, n: nat, bytes: Cells)
    requires Run(run) && start <= now < |run| && n in run[start].committed
    requires n in run[now].committed && HeaderIntact(run[now], n)
    requires BytesLoaded(run, alias, start, now, run[start].committed[n].offset + RECORD_HEADER_BYTES, bytes)
    requires |bytes| == |run[start].committed[n].payload|
    ensures bytes == run[start].committed[n].payload
  {
    var r := run[start].committed[n];
    forall i | 0 <= i < |bytes|
      ensures bytes[i] == r.payload[i]
    {
      var x := r.offset + RECORD_HEADER_BYTES + i;
      assert LoadedBetween(run, alias, start, now, x, bytes[i]);
      var t :| start <= t <= now && LoadedAt(run, alias, t, x, bytes[i]);
      IntactUntil(run, start, t, now, n);
    }
  }

  lemma TrustedHeader(run: seq<State>, alias: Alias, d: Descriptor, size: nat, start: nat, now: nat)
    requires Run(run) && start <= now < |run| && Genuine(run[start], d) && HeaderTrusted(run, alias, d, size)
    requires d.offset < |run[now].area| && LoadSeq(alias, run[now].area[d.offset]) == d.seqValue
    ensures d.seqValue / 2 in run[now].committed && HeaderIntact(run[now], d.seqValue / 2)
  {
    RunKeepsRecords(run, start, now, d.seqValue / 2);
    if !NeverAliases(alias, d.seqValue) {
      RunGrid(run, now, size);
    }
  }

  /** The record a descriptor names lies on the grid and inside an area of that many bytes. */
  predicate WellPlaced(d: Descriptor, ringBytes: nat) {
    && 0 <= d.offset && 0 <= d.payloadSize && d.offset % SHM_RECORD_ALIGN == 0
    && d.offset + RECORD_HEADER_BYTES + d.payloadSize <= ringBytes
  }

  /** At time t the record's header reads as something other than the descriptor says. */
  ghost predicate Contradicts(run: seq<State>, alias: Alias, t: nat, d: Descriptor) {
    && t < |run| && 0 <= d.offset && d.offset + 4 < |run[t].area|
    && (LoadSeq(alias, run[t].area[d.offset]) != d.seqValue || LoadLen(alias, run[t].area[d.offset + 4]) != d.payloadSize)
  }

  ghost predicate SeqSeen(run: seq<State>, alias: Alias, t: nat, d: Descriptor) {
    t < |run| && 0 <= d.offset < |run[t].area| && LoadSeq(alias, run[t].area[d.offset]) == d.seqValue
  }

  /** The bytes were loaded between two sightings of the descriptor's seq, a and b. */
  ghost predicate CopiedWithin(run: seq<State>, alias: Alias, d: Descriptor, a: nat, b: nat, bytes: Cells)
    requires 0 <= d.offset
  {
    && a <= b && SeqSeen(run, alias, a, d) && SeqSeen(run, alias, b, d)
    && |bytes| == d.payloadSize && BytesLoaded(run, alias, a, b, d.offset + RECORD_HEADER_BYTES, bytes)
  }

  /** TORN-READ FREEDOM.  A successful fetch of a genuine descriptor returns exactly the
      bytes staged under it, however the copy interleaves with the writer; and a fetch that
      ends while the record's header is still in place does succeed.  Genuine or not, a
      descriptor is read inside the record area between two sightings of its seq, and refused
      only if it lies outside or its header was seen to contradict it. */
  method FetchPayload(run: seq<State>, alias: Alias, d: Descriptor, start: nat, ghost size: nat)
    returns (bytes: Option<Cells>, now: nat)
    requires Run(run) && start < |run|
    ensures start <= now < |run|
    ensures bytes.Some? && Genuine(run[start], d) && HeaderTrusted(run, alias, d, size)
            ==> bytes.value == run[start].committed[d.seqValue / 2].payload
    ensures Genuine(run[start], d) && d.seqValue / 2 in run[now].committed && HeaderIntact(run[now], d.seqValue / 2)
            ==> bytes == Some(run[start].committed[d.seqValue / 2].payload)
    ensures bytes.Some? ==> WellPlaced(d, |run[0].area|) && exists a :: start <= a && CopiedWithin(run, alias, d, a, now, bytes.value)
    ensures bytes.None? ==> !WellPlaced(d, |run[0].area|) || Contradicts(run, alias, now, d)
  {
    now := start;
    var ringBytes := |run[0].area|;
    ghost var genuine := Genuine(run[start], d);
    ghost var n := d.seqValue / 2;
    if genuine { GenuineInBounds(run, d, start); }
    if d.offset < 0 || d.payloadSize < 0 || d.offset % SHM_RECORD_ALIGN != 0 || d.offset > ringBytes
      || RECORD_HEADER_BYTES + d.payloadSize > ringBytes - d.offset {
      return None, now;
    }

    now := Later(now, |run|);
    AreaSize(run, now);
    if LoadSeq(alias, run[now].area[d.offset]) != d.seqValue {
      if genuine { RunKeepsRecords(run, start, now, n); }
      return None, now;
    }
    ghost var first := now;
    now := Later(now, |run|);
    AreaSize(run, now);
    if LoadLen(alias, run[now].area[d.offset + 4]) != d.payloadSize {
      if genuine && n in run[now].committed && HeaderIntact(run[now], n) { IntactUntil(run, start, now, now, n); }
      return None, now;
    }

    var copy: Cells := [];
    while |copy| < d.payloadSize
      invariant start <= first <= now < |run| && |copy| <= d.payloadSize
      invariant BytesLoaded(run, alias, first, now, d.offset + RECORD_HEADER_BYTES, copy)
    {
      ghost var before := now;
      now := Later(now, |run|);
      AreaSize(run, now);
      LoadsLast(run, alias, first, before, first, now, d.offset + RECORD_HEADER_BYTES, copy);
      var x := d.offset + RECORD_HEADER_BYTES + |copy|;
      assert LoadedAt(run, alias, now, x, LoadByte(alias, run[now].area[x]));
      copy := copy + [LoadByte(alias, run[now].area[x])];
    }

    ghost var before := now;
    now := Later(now, |run|);
    AreaSize(run, now);
    LoadsLast(run, alias, first, before, first, now, d.offset + RECORD_HEADER_BYTES, copy);
    if genuine && n in run[now].committed && HeaderIntact(run[now], n) {
      IntactUntil(run, start, now, now, n);
      LoadsLast(run, alias, first, now, start, now, d.offset + RECORD_HEADER_BYTES, copy);
      IntactLoads(run, alias, start, now, n, copy);
    }
    if LoadSeq(alias, run[now].area[d.offset]) != d.seqValue {
      return None, now;
    }
    if genuine && HeaderTrusted(run, alias, d, size) {
      TrustedHeader(run, alias, d, size, start, now);
    }
    bytes := Some(copy);
    assert CopiedWithin(run, alias, d, first, now, copy);
  }

  lemma GenuineInBounds(run: seq<State>, d: Descriptor, t: nat)
    requires Run(run) && t < |run| && Genuine(run[t], d)
    ensures 0 <= d.offset && 0 <= d.payloadSize && d.offset % SHM_RECORD_ALIGN == 0
    ensures d.offset + RECORD_HEADER_BYTES + d.payloadSize <= |run[0].area|
  {
    RunInv(run, t);
    AreaSize(run, t);
    assert RecordInv(run[t], d.seqValue / 2);
    RecordBytesBounds(|run[t].committed[d.seqValue / 2].payload|);
    Arith.AlignUpIsRounding(d.offset, SHM_RECORD_ALIGN);
  }
}
