/** shm_prepare_send and shm_resolve_incoming: the choice between inline bytes and a ring
    descriptor, and its inverse. */
module Transport {
  import opened Wire
  import opened Schedule
  import opened PayloadProtocol
  import opened PayloadFetch
  import opened ShmRing

  /** The flagged message that stands for `payload` staged under `d`. */
  function Flagged(hdr: WireHeader, d: Descriptor): Message {
    Message(hdr.(payloadSize := DESCRIPTOR_BYTES, viaShm := true), EncodeDescriptor(d))
  }

  /** A flagged message naming a record of `run` committed by time t with that payload. */
  ghost predicate Carries(run: seq<State>, t: nat, m: Message, hdr: WireHeader, payload: Cells) {
    && t < |run| && |m.payload| == DESCRIPTOR_BYTES
    && var d := DecodeDescriptor(m.payload);
    && m == Flagged(hdr, d) && Genuine(run[t], d)
    && run[t].committed[d.seqValue / 2].payload == payload
  }

  /** Inline below the threshold or when shared memory fails, a descriptor otherwise. */
  method ShmPrepareSend(ring: ShmRingWriter, hdr: WireHeader, payload: Cells, available: bool, disabled: bool)
    returns (m: Message)
    requires ring.Valid() && ring.Quiet() && !hdr.viaShm && hdr.payloadSize == |payload|
    modifies ring, ring.area
    ensures ring.Valid() && ring.Quiet()
    ensures m.hdr.viaShm <==> |payload| >= SHM_PAYLOAD_THRESHOLD && old(ring.CanStage(|payload|, available, disabled))
    ensures !m.hdr.viaShm ==> m == Message(hdr, payload) && unchanged(ring) && unchanged(ring.area)
    ensures m.hdr.viaShm ==> ring.mapped && Carries(ring.run, |ring.run| - 1, m, hdr, payload)
                             && ring.PointsHere(DecodeDescriptor(m.payload))
                             && Age(Last(ring.run), DecodeDescriptor(m.payload).seqValue / 2) == 0
    ensures ring.segmentId == old(ring.segmentId) ==> ring.mapped == old(ring.mapped) && ring.area == old(ring.area)
    ensures ring.segmentId == old(ring.segmentId) && ring.mapped ==>
              old(ring.run) <= ring.run
              && Last(ring.run).reservations <= old(Last(ring.run)).reservations + 1
    ensures ring.segmentId == old(ring.segmentId) || (ring.segmentId > old(ring.segmentId) && fresh(ring.area))
  {
    m := Message(hdr, payload);
    if |payload| < SHM_PAYLOAD_THRESHOLD {
      return;
    }
    var staged, desc := ring.StagePayload(payload, available, disabled);
    if staged {
      m := Flagged(hdr, desc);
      DescriptorRoundTrip(desc);
    }
  }

  /** The inline message of what was copied between two sightings of the descriptor's seq, or
      nothing, for a descriptor out of bounds or contradicted by its record's header. */
  ghost predicate FetchOutcome(run: seq<State>, alias: Alias, start: nat, now: nat, d: Descriptor, hdr: WireHeader,
                               r: Option<Message>)
    requires |run| > 0
  {
    match r
    case Some(m) =>
      && WellPlaced(d, |run[0].area|) && m.hdr == hdr.(viaShm := false, payloadSize := |m.payload|)
      && exists a :: start <= a && CopiedWithin(run, alias, d, a, now, m.payload)
    case None => !WellPlaced(d, |run[0].area|) || Contradicts(run, alias, now, d)
  }

  /** `mapping` is the history of the segment a descriptor names, or None when it cannot be
      mapped; `sent` is what the sender meant the flagged message to carry. */
  method ShmResolveIncoming(m: Message, mapping: Option<seq<State>>, alias: Alias, start: nat,
                            ghost sent: Message, ghost size: nat)
    returns (r: Option<Message>, now: nat)
    requires mapping.Some? ==> Run(mapping.value) && start < |mapping.value|
    ensures mapping.Some? ==> start <= now < |mapping.value|
    ensures !m.hdr.viaShm ==> r == Some(m)
    ensures m.hdr.viaShm && (|m.payload| != DESCRIPTOR_BYTES || mapping.None?) ==> r == None
    ensures m.hdr.viaShm && |m.payload| == DESCRIPTOR_BYTES && mapping.Some? ==>
              FetchOutcome(mapping.value, alias, start, now, DecodeDescriptor(m.payload), m.hdr, r)
    ensures mapping.Some? && !sent.hdr.viaShm && sent.hdr.payloadSize == |sent.payload|
            && Carries(mapping.value, start, m, sent.hdr, sent.payload) ==>
              && (r.Some? && HeaderTrusted(mapping.value, alias, DecodeDescriptor(m.payload), size) ==> r == Some(sent))
              && (var n := DecodeDescriptor(m.payload).seqValue / 2;
                  n in mapping.value[now].committed && HeaderIntact(mapping.value[now], n) ==> r == Some(sent))
  {
    now := start;
    if !m.hdr.viaShm {
      return Some(m), now;
    }
    if |m.payload| != DESCRIPTOR_BYTES || mapping.None? {
      return None, now;
    }
    var bytes;
    bytes, now := FetchPayload(mapping.value, alias, DecodeDescriptor(m.payload), start, size);
    if bytes.None? {
      return None, now;
    }
    r := Some(Message(m.hdr.(viaShm := false, payloadSize := |bytes.value|), bytes.value));
  }

  /** SEND / RESOLVE ROUND TRIP.  Send a message, then at most two more, whatever their
      sizes and fates; a receiver that can map the segment and reads it at any times
      meanwhile gets back the header and payload that were sent.  `seg` is the history of
      the segment the first message was staged in: when a later message opens a bigger
      segment, readers keep the old one. */
  method SendThenResolve(ring: ShmRingWriter, hdr: WireHeader, payload: Cells,
                         later: seq<Message>, alias: Alias)
    returns (r: Option<Message>)
    requires ring.Valid() && ring.Quiet() && !hdr.viaShm && hdr.payloadSize == |payload|
    requires |later| <= 2
    requires forall m | m in later :: !m.hdr.viaShm && m.hdr.payloadSize == |m.payload|
    modifies ring, ring.area
    ensures r == Some(Message(hdr, payload))
  {
    var available, disabled: bool := *, *;
    var m := ShmPrepareSend(ring, hdr, payload, available, disabled);
    var seg, id, sentAt := ring.run, ring.segmentId, if |ring.run| == 0 then 0 else |ring.run| - 1;
    ghost var n := if m.hdr.viaShm then DecodeDescriptor(m.payload).seqValue / 2 else 0;
    for i := 0 to |later|
      invariant ring.Valid() && ring.Quiet() && (ring.area == old(ring.area) || fresh(ring.area))
      invariant ring.segmentId >= id
      invariant m.hdr.viaShm && ring.segmentId == id ==> ring.mapped && seg == ring.run
      invariant m.hdr.viaShm ==> Run(seg) && Carries(seg, sentAt, m, hdr, payload)
      invariant m.hdr.viaShm ==> n in Last(seg).committed && Age(Last(seg), n) <= i
    {
      ghost var before := seg;
      available, disabled := *, *;
      var _ := ShmPrepareSend(ring, later[i].hdr, later[i].payload, available, disabled);
      if ring.segmentId == id {
        seg := ring.run;
        if m.hdr.viaShm { RunKeepsRecords(seg, |before| - 1, |seg| - 1, n); }
      }
    }
    var now;
    if !m.hdr.viaShm {
      r, now := ShmResolveIncoming(m, None, alias, 0, m, 0);
      return;
    }
    r, now := ShmResolveIncoming(m, Some(seg), alias, sentAt, Message(hdr, payload), 0);
    RunKeepsRecords(seg, sentAt, now, n);
    RunKeepsRecords(seg, now, |seg| - 1, n);
    RecordSurvives(seg, now, n, 0);
  }
}
