/** The publisher's side of the latched cache as sequential code: tl_ring_create,
    tl_ring_latch and tl_ring_close over a byte-addressed mapping, and the ownership of the
    durable segments its descriptors name. */
module LatchedRing {
  import opened Wire
  import opened LatchProtocol
  import Arith

  const TL_RING_MAX_BYTES := 2 * 1024 * 1024
  const TL_HEADER_AREA := SHM_RECORD_ALIGN
  const TL_SLOT_BYTES_UNALIGNED := RECORD_HEADER_BYTES + WIRE_HEADER_BYTES + TL_EMBED_CAP
  const TL_SLOT_STRIDE := 1088

  function SlotBase(i: nat): nat { TL_HEADER_AREA + i * TL_SLOT_STRIDE }

  function MapSize(slots: nat): nat { SlotBase(slots) }

  /** A slot's record ends before the next slot begins and inside the mapping, behind the
      header area; the stride is the record size rounded up to the record alignment. */
  lemma SlotFits(i: nat, slots: nat, payload: nat)
    requires i < slots && payload <= TL_EMBED_CAP
    ensures TL_HEADER_AREA <= SlotBase(i)
    ensures SlotBase(i) + RECORD_HEADER_BYTES + WIRE_HEADER_BYTES + payload <= SlotBase(i + 1) <= MapSize(slots)
    ensures TL_SLOT_STRIDE % SHM_RECORD_ALIGN == 0
    ensures TL_SLOT_BYTES_UNALIGNED <= TL_SLOT_STRIDE < TL_SLOT_BYTES_UNALIGNED + SHM_RECORD_ALIGN
  {}

  function Word(c: int): nat { if c < 0 then 0 else c }

  /** The slot stored at index i of a mapping. */
  function SlotAt(mem: seq<int>, i: nat): Slot
    requires SlotBase(i + 1) <= |mem|
  {
    var b := SlotBase(i);
    Slot(Word(mem[b]), Word(mem[b + 4]), mem[b + RECORD_HEADER_BYTES..b + RECORD_HEADER_BYTES + SLOT_CELLS])
  }

  /** /dev/shm, as far as durable segments go: which names exist, and a fresh-id counter. */
  class ShmNamespace {
    var live: set<SegmentId>
    var nextOwner: SegmentId

    constructor ()
      ensures live == {} && nextOwner == 1
    {
      live, nextOwner := {}, 1;
    }

    ghost predicate Valid()
      reads this
    {
      forall s | s in live :: s < nextOwner
    }

    /** shm_stage_durable: a new segment under a never-used name; `available` is whether it can
        be created. */
    method StageDurable(available: bool) returns (seg: Option<SegmentId>, desc: Cells)
      requires Valid()
      modifies this
      ensures Valid()
      ensures seg.Some? <==> available
      ensures seg.None? ==> live == old(live)
      ensures seg.Some? ==> seg.value !in old(live) && live == old(live) + {seg.value} && NamesSegment(desc, seg.value)
    {
      desc := seq(DESCRIPTOR_BYTES, _ => 0);
      if !available {
        return None, desc;
      }
      seg := Some(nextOwner);
      desc := desc[OWNER_ID_OFFSET := nextOwner];
      live, nextOwner := live + {nextOwner}, nextOwner + 1;
    }

    /** ~DurableShmSegment, through a possibly empty unique_ptr. */
    method Destroy(seg: Option<SegmentId>)
      requires Valid()
      modifies this`live
      ensures Valid() && live == old(live) - (if seg.Some? then {seg.value} else {})
    {
      if seg.Some? {
        live := live - {seg.value};
      }
    }
  }

  /** What one successful latch does to the slots. */
  function LatchInto(slots: seq<Slot>, index: nat, s: Sample): seq<Slot>
    requires |slots| > 0 && index > 0 && SampleOk(s)
    requires forall i | 0 <= i < |slots| :: |slots[i].cells| == SLOT_CELLS
    requires |SlotCells(s)| <= SLOT_CELLS
  {
    var t := Arith.Residue(index - 1, |slots|);
    slots[t := Rewritten(slots[t], index, s)]
  }

  /** Slots that stand for the log, one latch later. */
  lemma LatchKeepsSlots(slots: seq<Slot>, log: seq<Sample>, s: Sample)
    requires |slots| > 0 && SampleOk(s) && Latchable(s)
    requires SlotsHold(slots, log)
    ensures SlotsHold(LatchInto(slots, |log| + 1, s), log + [s])
  {
    var n := |slots|;
    var t := Arith.Residue(|log|, n);
    var slots' := LatchInto(slots, |log| + 1, s);
    forall i | 0 <= i < n
      ensures StableSlot(slots'[i], i, n, log + [s])
    {
      if i == t {
        assert slots'[t].cells[..|SlotCells(s)|] == SlotCells(s);
      } else {
        OtherStaysStable(slots[i], i, n, log, s);
      }
    }
  }

  ghost predicate SlotsHold(slots: seq<Slot>, log: seq<Sample>)
    requires |slots| > 0
  {
    && (forall i | 0 <= i < |slots| :: |slots[i].cells| == SLOT_CELLS)
    && (forall i | 0 <= i < |slots| :: StableSlot(slots[i], i, |slots|, log))
  }

  /** A slot holding a descriptor owns the segment the descriptor names; other slots own none. */
  ghost predicate OwnersMatch(slots: seq<Slot>, log: seq<Sample>, segs: seq<Option<SegmentId>>)
    requires |slots| > 0 && SlotsHold(slots, log)
  {
    |segs| == |slots| && forall i | 0 <= i < |slots| :: OwnerMatches(slots[i].seqWord / 2, log, segs[i])
  }

  predicate OwnerMatches(k: nat, log: seq<Sample>, seg: Option<SegmentId>) {
    if 0 < k <= |log| && log[k - 1].staged.Some?
    then seg.Some? && NamesSegment(log[k - 1].staged.value, seg.value)
    else seg.None?
  }

  lemma LatchKeepsOwners(slots: seq<Slot>, log: seq<Sample>, segs: seq<Option<SegmentId>>, s: Sample, seg: Option<SegmentId>)
    requires |slots| > 0 && SampleOk(s) && Latchable(s) && SlotsHold(slots, log) && OwnersMatch(slots, log, segs)
    requires seg.Some? == s.staged.Some? && (seg.Some? ==> NamesSegment(s.staged.value, seg.value))
    ensures SlotsHold(LatchInto(slots, |log| + 1, s), log + [s])
    ensures OwnersMatch(LatchInto(slots, |log| + 1, s), log + [s], segs[Arith.Residue(|log|, |slots|) := seg])
  {
    LatchKeepsSlots(slots, log, s);
    var slots' := LatchInto(slots, |log| + 1, s);
    var t := Arith.Residue(|log|, |slots|);
    forall i | 0 <= i < |slots|
      ensures OwnerMatches(slots'[i].seqWord / 2, log + [s], segs[t := seg][i])
    {
      if i == t {
        assert slots'[t].seqWord / 2 == |log| + 1;
      } else {
        assert StableSlot(slots[i], i, |slots|, log) && OwnerMatches(slots[i].seqWord / 2, log, segs[i]);
      }
    }
  }

  class TlRingWriter {
    var mem: array<int>
    var mapped: bool
    var slots: nat
    var nextIndex: nat
    var durableSegs: seq<Option<SegmentId>>
    ghost var log: seq<Sample>

    ghost predicate Valid()
      reads this, mem
    {
      mapped ==>
        && slots > 0 && mem.Length == MapSize(slots) && |durableSegs| == slots
        && nextIndex == |log| + 1
        && SlotsHold(Slots(), log)
        && OwnersMatch(Slots(), log, durableSegs)
    }

    function Slots(): (r: seq<Slot>)
      requires mem.Length == MapSize(slots)
      reads this, mem
      ensures |r| == slots && forall i | 0 <= i < slots :: |r[i].cells| == SLOT_CELLS
    {
      SlotsOf(mem[..], slots)
    }

    /** tl_ring_create: as many slots as the depth asks for, at least one, clamped by the
        byte cap.  Failure leaves the publisher without a ring. */
    constructor (depth: nat, available: bool)
      ensures Valid() && mapped == available && log == [] && Owned(durableSegs) == {} && fresh(mem)
      ensures mapped ==> nextIndex == 1 && 1 <= slots && slots * TL_SLOT_STRIDE <= TL_RING_MAX_BYTES
      ensures mapped && depth <= 1 ==> slots == 1
      ensures mapped && depth >= 1 ==> slots <= depth
      ensures mapped && slots < depth ==> (slots + 1) * TL_SLOT_STRIDE > TL_RING_MAX_BYTES
      ensures forall i | 0 <= i < |durableSegs| :: durableSegs[i].None?
    {
      var count := if depth == 0 then 1 else depth;
      if count > TL_RING_MAX_BYTES / TL_SLOT_STRIDE {
        count := TL_RING_MAX_BYTES / TL_SLOT_STRIDE;
      }
      mem := new int[MapSize(count)](_ => 0);
      mapped, slots, nextIndex, log := available, count, 1, [];
      durableSegs := seq(count, _ => None);
      new;
      forall i | 0 <= i < slots
        ensures StableSlot(Slots()[i], i, slots, []) && |Slots()[i].cells| == SLOT_CELLS
      {
        StrideFits(i, slots);
      }
    }

    /** Write one slot; `trace` is what readers of the mapping may find meanwhile. */
    method WriteRecord(slot: nat, s: Sample) returns (ghost trace: seq<seq<int>>)
      requires mem.Length == MapSize(slots) && slot < slots && nextIndex > 0 && SampleOk(s) && Latchable(s)
      modifies mem
      ensures Patched(old(mem[..]), mem[..], SlotBase(slot), nextIndex, s)
      ensures Slots() == old(Slots())[slot := Rewritten(old(Slots())[slot], nextIndex, s)]
      ensures SeqlockWrite(trace, SlotBase(slot), nextIndex) && trace[0] == old(mem[..]) && trace[|trace| - 1] == mem[..]
    {
      SlotFits(slot, slots, |SlotMessage(s).payload|);
      trace := StoreRecord(SlotBase(slot), s);
      PatchedSlots(old(mem[..]), mem[..], slots, slot, nextIndex, s);
    }

    /** The seqlock write at b: odd word, length, header, payload, even word.  `trace` is the
        memory before, between and after these. */
    method StoreRecord(b: nat, s: Sample) returns (ghost trace: seq<seq<int>>)
      requires SampleOk(s) && nextIndex > 0 && b + RECORD_HEADER_BYTES + |SlotCells(s)| <= mem.Length
      modifies mem
      ensures Patched(old(mem[..]), mem[..], b, nextIndex, s)
      ensures SeqlockWrite(trace, b, nextIndex) && trace[0] == old(mem[..]) && trace[|trace| - 1] == mem[..]
    {
      ghost var before := mem[..];
      mem[b] := 2 * nextIndex - 1;
      ghost var odd := mem[..];
      ghost var inner := StoreMessage(b, s);
      ghost var filled := mem[..];
      mem[b] := 2 * nextIndex;
      trace := [before, odd] + inner + [filled, mem[..]];
    }

    /** Length, header and payload; the word stays as it is. */
    method StoreMessage(b: nat, s: Sample) returns (ghost trace: seq<seq<int>>)
      requires SampleOk(s) && b + RECORD_HEADER_BYTES + |SlotCells(s)| <= mem.Length
      modifies mem
      ensures forall t | t in trace :: |t| == mem.Length && t[b] == old(mem[b])
      ensures forall x | 0 <= x < mem.Length ::
                mem[x] == if x == b + 4 then |SlotMessage(s).payload|
                          else if b + RECORD_HEADER_BYTES <= x < b + RECORD_HEADER_BYTES + |SlotCells(s)|
                          then SlotCells(s)[x - b - RECORD_HEADER_BYTES]
                          else old(mem[x])
    {
      var m := SlotMessage(s);
      mem[b + 4] := |m.payload|;
      trace := [mem[..]];
      Memcpy(mem, b + RECORD_HEADER_BYTES, HeaderCells(m.hdr));
      trace := trace + [mem[..]];
      Memcpy(mem, b + RECORD_HEADER_BYTES + WIRE_HEADER_BYTES, m.payload);
    }

    /** tl_ring_latch.  `committed` is the outcome of posix_fallocate on the slot's pages. */
    method Latch(s: Sample, seg: Option<SegmentId>, committed: bool, shm: ShmNamespace)
      returns (ok: bool, evicted: Option<SegmentId>)
      requires Valid() && SampleOk(s) && shm.Valid()
      requires seg.Some? == s.staged.Some?
      requires seg.Some? ==> NamesSegment(s.staged.value, seg.value)
      modifies this, mem, shm`live
      ensures Valid() && shm.Valid() && mem == old(mem) && slots == old(slots) && mapped == old(mapped)
      ensures ok <==> mapped && Latchable(s) && committed
      ensures !ok ==>
        && log == old(log) && mem[..] == old(mem[..]) && nextIndex == old(nextIndex)
        && durableSegs == old(durableSegs) && evicted == None
        && shm.live == old(shm.live) - (if seg.Some? then {seg.value} else {})
      ensures ok ==>
        && log == old(log) + [s] && shm.live == old(shm.live)
        && old(slots > 0 && mem.Length == MapSize(slots) && |durableSegs| == slots && SlotsHold(Slots(), log))
        && Slots() == LatchInto(old(Slots()), old(nextIndex), s)
        && var t := Arith.Residue(old(nextIndex) - 1, slots);
        && evicted == old(durableSegs)[t] && durableSegs == old(durableSegs)[t := seg]
    {
      ok, evicted := false, None;
      if !mapped || (s.staged.None? && |s.data| > TL_EMBED_CAP) || !committed {
        shm.Destroy(seg);
        return;
      }
      evicted := CommitRecord(s, seg);
      ok := true;
    }

    /** The next record into its slot, adopting its segment and giving up the slot's old one. */
    method CommitRecord(s: Sample, seg: Option<SegmentId>) returns (evicted: Option<SegmentId>)
      requires Valid() && mapped && SampleOk(s) && Latchable(s) && seg.Some? == s.staged.Some?
      requires seg.Some? ==> NamesSegment(s.staged.value, seg.value)
      modifies this`log, this`durableSegs, this`nextIndex, mem
      ensures Valid() && log == old(log) + [s]
      ensures Slots() == LatchInto(old(Slots()), old(nextIndex), s)
      ensures var t := Arith.Residue(old(nextIndex) - 1, slots);
              evicted == old(durableSegs)[t] && durableSegs == old(durableSegs)[t := seg]
    {
      var slot := (nextIndex - 1) % slots;
      Arith.ResidueIsRemainder(nextIndex - 1, slots);
      ghost var before := Slots();
      ghost var _ := WriteRecord(slot, s);
      LatchKeepsOwners(before, log, durableSegs, s, seg);
      log := log + [s];
      evicted := durableSegs[slot];
      durableSegs := durableSegs[slot := seg];
      nextIndex := nextIndex + 1;
    }
  }

  method Memcpy(mem: array<int>, at: nat, src: Cells)
    requires at + |src| <= mem.Length
    modifies mem
    ensures forall x | 0 <= x < mem.Length :: mem[x] == if at <= x < at + |src| then src[x - at] else old(mem[x])
  {
    for j := 0 to |src|
      invariant forall x | 0 <= x < mem.Length :: mem[x] == if at <= x < at + j then src[x - at] else old(mem[x])
    {
      mem[at + j] := src[j];
    }
  }

  /** Of the memory states of a record's stores: its word turns odd before anything else changes,
      stays odd, and turns even once everything else has changed. */
  ghost predicate SeqlockWrite(trace: seq<seq<int>>, b: nat, index: nat) {
    var last := |trace| - 1;
    && last >= 2 && (forall k | 0 <= k <= last :: b < |trace[k]|)
    && trace[1] == trace[0][b := 2 * index - 1] && trace[last] == trace[last - 1][b := 2 * index]
    && forall k | 1 <= k < last :: trace[k][b] == 2 * index - 1
  }

  function Rewritten(slot: Slot, index: nat, s: Sample): Slot
    requires SampleOk(s) && |SlotCells(s)| <= |slot.cells|
  {
    Slot(2 * index, |SlotMessage(s).payload|, SlotCells(s) + slot.cells[|SlotCells(s)|..])
  }

  /** mem' is mem with the record at b rewritten. */
  ghost predicate Patched(mem: seq<int>, mem': seq<int>, b: nat, index: nat, s: Sample)
    requires SampleOk(s)
  {
    && |mem'| == |mem|
    && forall x | 0 <= x < |mem| ::
         mem'[x] == if x == b then 2 * index
                    else if x == b + 4 then |SlotMessage(s).payload|
                    else if b + RECORD_HEADER_BYTES <= x < b + RECORD_HEADER_BYTES + |SlotCells(s)|
                    then SlotCells(s)[x - b - RECORD_HEADER_BYTES]
                    else mem[x]
  }

  lemma PatchedTarget(mem: seq<int>, mem': seq<int>, slot: nat, index: nat, s: Sample)
    requires SampleOk(s) && Latchable(s) && SlotBase(slot + 1) <= |mem|
    requires Patched(mem, mem', SlotBase(slot), index, s)
    ensures SlotAt(mem', slot) == Rewritten(SlotAt(mem, slot), index, s)
  {
    var b := SlotBase(slot);
    var old', new' := SlotAt(mem, slot).cells, SlotAt(mem', slot).cells;
    var cs := SlotCells(s);
    assert forall j | 0 <= j < SLOT_CELLS :: new'[j] == if j < |cs| then cs[j] else old'[j];
    assert new' == cs + old'[|cs|..];
  }

  lemma PatchedElsewhere(mem: seq<int>, mem': seq<int>, b0: nat, b: nat, index: nat, s: Sample, x: nat)
    requires SampleOk(s) && |SlotCells(s)| <= SLOT_CELLS && Patched(mem, mem', b0, index, s)
    requires b0 + TL_SLOT_STRIDE <= b || b + TL_SLOT_STRIDE <= b0
    requires b <= x < b + RECORD_HEADER_BYTES + SLOT_CELLS && x < |mem|
    ensures mem'[x] == mem[x]
  {}

  lemma PatchedOther(mem: seq<int>, mem': seq<int>, slot: nat, i: nat, index: nat, s: Sample)
    requires SampleOk(s) && Latchable(s) && SlotBase(i + 1) <= |mem| && SlotBase(slot + 1) <= |mem| && i != slot
    requires Patched(mem, mem', SlotBase(slot), index, s)
    ensures SlotAt(mem', i) == SlotAt(mem, i)
  {
    var b := SlotBase(i);
    SlotsApart(slot, i);
    forall x | b <= x < b + RECORD_HEADER_BYTES + SLOT_CELLS
      ensures mem'[x] == mem[x]
    {
      PatchedElsewhere(mem, mem', SlotBase(slot), b, index, s, x);
    }
    assert SlotAt(mem, i).cells == SlotAt(mem', i).cells;
  }

  /** Rewriting a record changes its own slot and no other. */
  lemma PatchedSlots(mem: seq<int>, mem': seq<int>, slots: nat, slot: nat, index: nat, s: Sample)
    requires |mem| == MapSize(slots) && slot < slots && SampleOk(s) && Latchable(s)
    requires Patched(mem, mem', SlotBase(slot), index, s)
    ensures |SlotCells(s)| <= SLOT_CELLS
    ensures SlotsOf(mem', slots) == SlotsOf(mem, slots)[slot := Rewritten(SlotsOf(mem, slots)[slot], index, s)]
  {
    forall i | 0 <= i < slots
      ensures SlotsOf(mem', slots)[i] == if i == slot then Rewritten(SlotsOf(mem, slots)[slot], index, s)
                                         else SlotsOf(mem, slots)[i]
    {
      StrideFits(i, slots);
      StrideFits(slot, slots);
      if i == slot { PatchedTarget(mem, mem', slot, index, s); } else { PatchedOther(mem, mem', slot, i, index, s); }
    }
  }

  function SlotsOf(mem: seq<int>, slots: nat): (r: seq<Slot>)
    requires |mem| == MapSize(slots)
    ensures |r| == slots && forall i | 0 <= i < slots :: |r[i].cells| == SLOT_CELLS
  {
    seq(slots, i requires 0 <= i < slots => StrideFits(i, slots); SlotAt(mem, i))
  }

  lemma SlotsApart(a: nat, b: nat)
    requires a != b
    ensures SlotBase(a) + TL_SLOT_STRIDE <= SlotBase(b) || SlotBase(b) + TL_SLOT_STRIDE <= SlotBase(a)
  {}

  function Owned(segs: seq<Option<SegmentId>>): set<SegmentId> {
    set i | 0 <= i < |segs| && segs[i].Some? :: segs[i].value
  }

  lemma StrideFits(i: nat, slots: nat)
    requires i < slots
    ensures SlotBase(i + 1) <= MapSize(slots)
  {
    SlotFits(i, slots, 0);
  }
}
