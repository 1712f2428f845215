/** What travels between processes: wire headers, messages, and the samples of a
    latched (TRANSIENT_LOCAL) publisher.

    A cell models one addressable unit of shared memory.  A multi-byte field lives in
    the cell of its first byte and the cells behind it are filler, so offsets and sizes
    are those of the C structs while a field is never split below cell granularity. */
module Wire {

  datatype Option<+T> = None | Some(value: T)

  type Cells = seq<int>

  const GID_BYTES := 16
  const WIRE_HEADER_BYTES := 37
  const RECORD_HEADER_BYTES := 8
  const DESCRIPTOR_BYTES := 32
  const SHM_RECORD_ALIGN := 64
  const TL_EMBED_CAP := 1024
  const SHM_PAYLOAD_THRESHOLD := 65536
  const SHM_PAYLOAD_FLAG := 128

  /** `kind` holds the low bits of msg_type and `viaShm` its SHM_PAYLOAD_FLAG bit. */
  datatype WireHeader = WireHeader(
    gid: Cells,
    sequenceNumber: int,
    timestamp: int,
    payloadSize: int,
    kind: nat,
    viaShm: bool)

  datatype Message = Message(hdr: WireHeader, payload: Cells)

  predicate HeaderOk(h: WireHeader) {
    |h.gid| == GID_BYTES && h.kind < SHM_PAYLOAD_FLAG
  }

  function HeaderCells(h: WireHeader): (c: Cells)
    requires HeaderOk(h)
    ensures |c| == WIRE_HEADER_BYTES
  {
    h.gid
    + [h.sequenceNumber, 0, 0, 0, 0, 0, 0, 0]
    + [h.timestamp, 0, 0, 0, 0, 0, 0, 0]
    + [h.payloadSize, 0, 0, 0]
    + [h.kind + if h.viaShm then SHM_PAYLOAD_FLAG else 0]
  }

  function DecodeHeader(c: Cells): WireHeader
    requires |c| == WIRE_HEADER_BYTES
  {
    WireHeader(c[..16], c[16], c[24], c[32], c[36] % SHM_PAYLOAD_FLAG, c[36] / SHM_PAYLOAD_FLAG == 1)
  }

  /** Blitting a header into memory and blitting it back loses nothing. */
  lemma HeaderRoundTrip(h: WireHeader)
    requires HeaderOk(h)
    ensures DecodeHeader(HeaderCells(h)) == h
  {
    assert HeaderCells(h)[..16] == h.gid;
  }

  /** A durable segment, named by the owner id drawn for it. */
  type SegmentId = nat

  const OWNER_ID_OFFSET := 28

  predicate NamesSegment(desc: Cells, seg: SegmentId) {
    |desc| == DESCRIPTOR_BYTES && desc[OWNER_ID_OFFSET] == seg
  }

  /** One published sample.  `hdr` is the header of the inline datagram; `staged` is the
      descriptor of the sample's durable segment, when the payload is too large to embed
      and staging it succeeded. */
  datatype Sample = Sample(hdr: WireHeader, data: Cells, staged: Option<Cells>)

  predicate SampleOk(s: Sample) {
    && HeaderOk(s.hdr)
    && s.hdr.kind == 0 && !s.hdr.viaShm
    && s.hdr.payloadSize == |s.data|
    && (s.staged.Some? ==> |s.staged.value| == DESCRIPTOR_BYTES && TL_EMBED_CAP < |s.data|)
  }

  /** tl_ring_latch refuses an over-cap payload that was not staged. */
  predicate Latchable(s: Sample) {
    s.staged.Some? || |s.data| <= TL_EMBED_CAP
  }

  function Seqno(s: Sample): int { s.hdr.sequenceNumber }

  function ViaDescriptor(s: Sample): Message
    requires s.staged.Some?
  {
    Message(s.hdr.(payloadSize := DESCRIPTOR_BYTES, viaShm := true), s.staged.value)
  }

  /** What the latch writes into the ring slot. */
  function SlotMessage(s: Sample): Message {
    if s.staged.Some? then ViaDescriptor(s) else InlineMessage(s)
  }

  /** What the live fan-out sends: the descriptor only for a payload at the datagram
      threshold whose latch committed, the inline bytes otherwise. */
  function WireMessage(s: Sample, latched: bool): Message {
    if s.staged.Some? && latched && |s.data| >= SHM_PAYLOAD_THRESHOLD then ViaDescriptor(s)
    else InlineMessage(s)
  }

  /** The sample as a subscriber gets to see it. */
  function InlineMessage(s: Sample): Message { Message(s.hdr, s.data) }

  /** The fan-out of this sample, once latched, carries its bytes and no descriptor. */
  predicate SentInline(s: Sample) {
    s.staged.None? || |s.data| < SHM_PAYLOAD_THRESHOLD
  }

  /** m is sample k of the log, by descriptor. */
  predicate IsDescriptorOf(log: seq<Sample>, m: Message, k: nat) {
    k < |log| && log[k].staged.Some? && m == ViaDescriptor(log[k])
  }

  function SlotCells(s: Sample): (c: Cells)
    requires SampleOk(s)
    ensures |c| == WIRE_HEADER_BYTES + |SlotMessage(s).payload|
  {
    HeaderCells(SlotMessage(s).hdr) + SlotMessage(s).payload
  }

  /** A slot's cells determine the message latched into it. */
  lemma SlotRoundTrip(s: Sample)
    requires SampleOk(s)
    ensures DecodeHeader(SlotCells(s)[..WIRE_HEADER_BYTES]) == SlotMessage(s).hdr
    ensures SlotCells(s)[WIRE_HEADER_BYTES..] == SlotMessage(s).payload
  {
    var m := SlotMessage(s);
    HeaderRoundTrip(m.hdr);
    assert SlotCells(s)[..WIRE_HEADER_BYTES] == HeaderCells(m.hdr);
  }
}
