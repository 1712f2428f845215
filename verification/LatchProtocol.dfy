/** The concurrent world in which a late joiner pulls a latched publisher's history.

    One publisher runs transient_local_publish over and over, one joiner registers its
    subscription, and other entities add and remove registry entries.  Every atomic
    load, store or copied cell of the publisher is one step, steps interleave
    arbitrarily, and memory is sequentially consistent.  The joiner's own reads are not
    steps: LatchedPull executes them against a run at any non-decreasing times.

    A run may stop anywhere, which is how a publisher killed mid-write appears. */
module LatchProtocol {
  import opened Wire
  import opened Schedule
  import Arith

  /** One ring slot: ShmRecordHeader followed by the header and payload area. */
  datatype Slot = Slot(seqWord: nat, len: nat, cells: Cells)

  /** Where the publisher stands in transient_local_publish. */
  datatype PubPc =
    | Idle
    | Assigned(sample: Sample)                      // sequence number taken under cache_mutex
    | Marked(sample: Sample)                        // slot's seq is odd
    | Copying(sample: Sample, done: nat)            // payload_len stored, `done` cells copied
    | Fenced(sample: Sample, latched: bool)         // latch over, generation not yet loaded
    | Loaded(sample: Sample, latched: bool, seen: nat)
    | Querying(sample: Sample, latched: bool, seen: nat, bound: nat)  // high_water read
    | Sending(sample: Sample, latched: bool)        // subscriber list settled

  /** How far the joiner's registry_add has come. */
  datatype JoinPhase = Absent | Published | Widened | Bumped

  datatype State = State(
    gid: Cells,
    slots: seq<Slot>,
    nextIndex: nat,
    nextSeq: int,
    pc: PubPc,
    cachedGeneration: nat,
    joinerCached: bool,
    generation: nat,
    highWater: nat,
    joinIndex: nat,
    joinPhase: JoinPhase,
    socket: seq<Message>,
    // History: committed samples in latch order, and the generation and latch count at
    // the moment the joiner's registration bumped the generation.
    log: seq<Sample>,
    joinGeneration: nat,
    joinLog: nat)

  const SLOT_CELLS := WIRE_HEADER_BYTES + TL_EMBED_CAP

  predicate Init(s: State) {
    && |s.slots| > 0 && |s.gid| == GID_BYTES
    && (forall i | 0 <= i < |s.slots| :: s.slots[i].seqWord == 0 && |s.slots[i].cells| == SLOT_CELLS)
    && s.nextIndex == 1 && s.nextSeq == 1 && s.pc == Idle
    && s.cachedGeneration == 0 && !s.joinerCached
    && s.joinPhase == Absent && s.socket == [] && s.log == []
    && s.joinGeneration == 0 && s.joinLog == 0
  }

  // ----- Steps of the publisher -----

  function Target(s: State): nat
    requires |s.slots| > 0 && s.nextIndex > 0
  {
    Arith.Residue(s.nextIndex - 1, |s.slots|)
  }

  predicate Writing(s: State) { s.pc.Marked? || s.pc.Copying? }

  function SetTarget(s: State, slot: Slot): State
    requires |s.slots| > 0 && s.nextIndex > 0
  {
    s.(slots := s.slots[Target(s) := slot])
  }

  predicate BeginPublish(s: State, s': State) {
    && s.pc.Idle? && s'.pc.Assigned?
    && SampleOk(s'.pc.sample) && s'.pc.sample.hdr.gid == s.gid && Seqno(s'.pc.sample) == s.nextSeq
    && s' == s.(pc := s'.pc, nextSeq := s.nextSeq + 1)
  }

  /** An over-cap unstaged payload, or a slot whose pages cannot be committed. */
  predicate LatchFails(s: State, s': State) {
    s.pc.Assigned? && s' == s.(pc := Fenced(s.pc.sample, false))
  }

  predicate MarkSlot(s: State, s': State) {
    && s.pc.Assigned? && Latchable(s.pc.sample) && |s.slots| > 0 && s.nextIndex > 0
    && s' == SetTarget(s, s.slots[Target(s)].(seqWord := 2 * s.nextIndex - 1)).(pc := Marked(s.pc.sample))
  }

  /** payload_len is a plain store: a reader may see any intermediate value. */
  predicate TearLength(s: State, s': State) {
    && s.pc.Marked? && |s.slots| > 0 && s.nextIndex > 0 && |s'.slots| == |s.slots|
    && s' == SetTarget(s, s.slots[Target(s)].(len := s'.slots[Target(s)].len))
  }

  predicate StoreLength(s: State, s': State) {
    && s.pc.Marked? && |s.slots| > 0 && s.nextIndex > 0
    && s' == SetTarget(s, s.slots[Target(s)].(len := |SlotMessage(s.pc.sample).payload|)).(
                pc := Copying(s.pc.sample, 0))
  }

  predicate CopyCell(s: State, s': State) {
    && s.pc.Copying? && |s.slots| > 0 && s.nextIndex > 0
    && var slot := s.slots[Target(s)];
    && SampleOk(s.pc.sample) && s.pc.done < |SlotCells(s.pc.sample)| && s.pc.done < |slot.cells|
    && s' == SetTarget(s, slot.(cells := slot.cells[s.pc.done := SlotCells(s.pc.sample)[s.pc.done]])).(
                pc := Copying(s.pc.sample, s.pc.done + 1))
  }

  predicate Commit(s: State, s': State) {
    && s.pc.Copying? && |s.slots| > 0 && s.nextIndex > 0
    && SampleOk(s.pc.sample) && s.pc.done == |SlotCells(s.pc.sample)|
    && s' == SetTarget(s, s.slots[Target(s)].(seqWord := 2 * s.nextIndex)).(
                pc := Fenced(s.pc.sample, true), nextIndex := s.nextIndex + 1,
                log := s.log + [s.pc.sample])
  }

  predicate LoadGeneration(s: State, s': State) {
    && s.pc.Fenced?
    && s' == s.(pc := if s.generation > s.cachedGeneration
                      then Loaded(s.pc.sample, s.pc.latched, s.generation)
                      else Sending(s.pc.sample, s.pc.latched))
  }

  predicate QueryBound(s: State, s': State) {
    && s.pc.Loaded?
    && s' == s.(pc := Querying(s.pc.sample, s.pc.latched, s.pc.seen, s.highWater))
  }

  /** registry_query's visit of the joiner's slot, and the cache replacement. */
  predicate QuerySlot(s: State, s': State) {
    && s.pc.Querying?
    && s' == s.(pc := Sending(s.pc.sample, s.pc.latched),
                cachedGeneration := s.pc.seen,
                joinerCached := s.joinIndex < s.pc.bound && s.joinPhase != Absent)
  }

  predicate Send(s: State, s': State) {
    && s.pc.Sending?
    && s' == s.(pc := Idle,
                socket := if s.joinerCached then s.socket + [WireMessage(s.pc.sample, s.pc.latched)]
                          else s.socket)
  }

  // ----- Steps of the joiner's registration and of other entities -----

  predicate JoinPublish(s: State, s': State) {
    s.joinPhase.Absent? && s' == s.(joinPhase := Published)
  }

  predicate JoinWiden(s: State, s': State) {
    && s.joinPhase.Published?
    && s' == s.(joinPhase := Widened,
                highWater := if s.highWater < s.joinIndex + 1 then s.joinIndex + 1 else s.highWater)
  }

  predicate JoinBump(s: State, s': State) {
    && s.joinPhase.Widened?
    && s' == s.(joinPhase := Bumped, generation := s.generation + 1,
                joinGeneration := s.generation + 1, joinLog := |s.log|)
  }

  predicate OtherMutation(s: State, s': State) {
    && s.generation <= s'.generation && s.highWater <= s'.highWater
    && s' == s.(generation := s'.generation, highWater := s'.highWater)
  }

  predicate WriterStep(s: State, s': State) {
    || MarkSlot(s, s') || TearLength(s, s') || StoreLength(s, s') || CopyCell(s, s') || Commit(s, s')
  }

  predicate FanOutStep(s: State, s': State) {
    || LoadGeneration(s, s') || QueryBound(s, s') || QuerySlot(s, s') || Send(s, s')
  }

  predicate JoinStep(s: State, s': State) {
    JoinPublish(s, s') || JoinWiden(s, s') || JoinBump(s, s') || OtherMutation(s, s')
  }

  predicate Next(s: State, s': State) {
    BeginPublish(s, s') || LatchFails(s, s') || WriterStep(s, s') || FanOutStep(s, s') || JoinStep(s, s')
  }

  // ----- Invariants -----

  /** Slot i of n holds exactly the newest committed sample that maps to it. */
  predicate StableSlot(slot: Slot, i: nat, n: nat, log: seq<Sample>)
    requires n > 0
  {
    && slot.seqWord % 2 == 0
    && var k := slot.seqWord / 2;
    && (k == 0 ==> |log| <= i)
    && (k > 0 ==> k <= |log| && Arith.Residue(k - 1, n) == i && |log| < k + n && HoldsSample(slot, log[k - 1]))
  }

  predicate HoldsSample(slot: Slot, sample: Sample) {
    && SampleOk(sample) && Latchable(sample)
    && slot.len == |SlotMessage(sample).payload|
    && |SlotCells(sample)| <= |slot.cells|
    && slot.cells[..|SlotCells(sample)|] == SlotCells(sample)
  }

  predicate SlotInFlux(s: State, slot: Slot)
    requires s.nextIndex > 0
  {
    && slot.seqWord == 2 * s.nextIndex - 1
    && (s.pc.Copying? ==>
        && SampleOk(s.pc.sample)
        && s.pc.done <= |SlotCells(s.pc.sample)| <= |slot.cells|
        && slot.len == |SlotMessage(s.pc.sample).payload|
        && slot.cells[..s.pc.done] == SlotCells(s.pc.sample)[..s.pc.done])
  }

  predicate SlotInv(s: State, i: nat)
    requires |s.slots| > 0 && s.nextIndex > 0 && i < |s.slots|
  {
    && |s.slots[i].cells| == SLOT_CELLS
    && if Writing(s) && i == Target(s) then SlotInFlux(s, s.slots[i])
       else StableSlot(s.slots[i], i, |s.slots|, s.log)
  }

  predicate RingInv(s: State) {
    && |s.slots| > 0 && s.nextIndex == |s.log| + 1
    && (forall k | 0 <= k < |s.log| :: SampleOk(s.log[k]) && Latchable(s.log[k]))
    && (!s.pc.Idle? ==> SampleOk(s.pc.sample))
    && (Writing(s) ==> Latchable(s.pc.sample))
    && (forall i | 0 <= i < |s.slots| :: SlotInv(s, i))
  }

  /** A sample latched and not yet through its fan-out is the newest log entry. */
  predicate InFanOut(s: State) {
    !s.pc.Idle? && !s.pc.Assigned? && !Writing(s) && s.pc.latched
  }

  ghost predicate LogAscends(log: seq<Sample>) {
    forall j, k | 0 <= j < k < |log| :: Seqno(log[j]) < Seqno(log[k])
  }

  ghost predicate SocketAscends(socket: seq<Message>) {
    forall j, k | 0 <= j < k < |socket| :: socket[j].hdr.sequenceNumber < socket[k].hdr.sequenceNumber
  }

  ghost predicate LogBelow(log: seq<Sample>, bound: int) {
    forall k | 0 <= k < |log| :: 1 <= Seqno(log[k]) < bound
  }

  ghost predicate SocketBelow(socket: seq<Message>, bound: int) {
    forall k | 0 <= k < |socket| :: socket[k].hdr.sequenceNumber < bound
  }

  /** Sequence numbers grow along the log and along the socket. */
  ghost predicate SequenceInv(s: State) {
    && 1 <= s.nextSeq
    && LogAscends(s.log) && LogBelow(s.log, s.nextSeq)
    && SocketAscends(s.socket) && SocketBelow(s.socket, s.nextSeq)
    && (!s.pc.Idle? ==>
        && 1 <= Seqno(s.pc.sample) == s.nextSeq - 1
        && SocketBelow(s.socket, s.nextSeq - 1))
    && (InFanOut(s) ==> |s.log| > 0 && s.log[|s.log| - 1] == s.pc.sample)
    && (!s.pc.Idle? && !InFanOut(s) ==> LogBelow(s.log, s.nextSeq - 1))
  }

  /** The memoization invariant of refresh_sub_paths: a cached generation covering the
      joiner's registration implies a cached list containing the joiner. */
  predicate CacheInv(s: State) {
    && s.cachedGeneration <= s.generation
    && (s.pc.Loaded? || s.pc.Querying? ==> s.pc.seen <= s.generation)
    && (s.joinPhase.Widened? || s.joinPhase.Bumped? ==> s.joinIndex < s.highWater)
    && (s.joinPhase.Bumped? ==>
        && s.joinGeneration <= s.generation
        && (s.joinGeneration <= s.cachedGeneration ==> s.joinerCached)
        && (s.pc.Querying? && s.joinGeneration <= s.pc.seen ==> s.joinIndex < s.pc.bound))
  }

  /** Has sample k's publish call returned from its send loop? */
  predicate Finished(s: State, k: nat) {
    k <= |s.log| && (InFanOut(s) ==> k < |s.log|)
  }

  /** The store-buffering half: a sample committed after the registration is sent, or is
      still on its way to a send that will include the joiner. */
  ghost predicate DeliveryInv(s: State) {
    && (!s.joinPhase.Bumped? ==> s.joinLog == 0)
    && (s.joinPhase.Bumped? ==> s.joinLog <= |s.log| && LateSamplesSent(s) && LateSamplePending(s))
    && DatagramsMatchLog(s.socket, s.log)
  }

  ghost predicate LateSamplesSent(s: State) {
    forall k | s.joinLog < k <= |s.log| && Finished(s, k) :: WireMessage(s.log[k - 1], true) in s.socket
  }

  predicate LateSamplePending(s: State) {
    InFanOut(s) && s.joinLog < |s.log| ==>
      && (s.pc.Loaded? || s.pc.Querying? ==> s.joinGeneration <= s.pc.seen)
      && (s.pc.Sending? ==> s.joinerCached)
  }

  ghost predicate DatagramsMatchLog(socket: seq<Message>, log: seq<Sample>) {
    forall j, k | 0 <= j < |socket| && 0 <= k < |log| ::
      socket[j].hdr.sequenceNumber == Seqno(log[k]) ==> socket[j] == WireMessage(log[k], true)
  }

  /** Everything sent is a topic message of this publisher. */
  ghost predicate OriginInv(s: State) {
    && (forall k | 0 <= k < |s.log| :: s.log[k].hdr.gid == s.gid)
    && (!s.pc.Idle? ==> s.pc.sample.hdr.gid == s.gid)
    && (forall k | 0 <= k < |s.socket| :: s.socket[k].hdr.gid == s.gid && s.socket[k].hdr.kind == 0)
  }

  ghost predicate Inv(s: State) {
    RingInv(s) && SequenceInv(s) && CacheInv(s) && DeliveryInv(s) && OriginInv(s)
  }

  // ----- Every step keeps the invariants -----

  lemma InitInv(s: State)
    requires Init(s)
    ensures Inv(s)
  {}

  lemma CommitKeepsTarget(s: State, s': State)
    requires RingInv(s) && Commit(s, s')
    ensures SlotInv(s', Target(s))
  {
    var t := Target(s);
    assert SlotInv(s, t);
    var cs := SlotCells(s.pc.sample);
    assert s.slots[t].cells[..|cs|] == cs[..|cs|] == cs;
    assert s'.log[s.nextIndex - 1] == s.pc.sample;
    assert s'.slots[t].seqWord / 2 == s.nextIndex;
  }

  /** A slot the next sample does not map to stands for the longer log too. */
  lemma OtherStaysStable(slot: Slot, i: nat, n: nat, log: seq<Sample>, sample: Sample)
    requires i < n && StableSlot(slot, i, n, log) && i != Arith.Residue(|log|, n)
    ensures StableSlot(slot, i, n, log + [sample])
  {
    var k := slot.seqWord / 2;
    if k > 0 { Arith.ResidueStep(k - 1, |log| + 1 - k, n); }
  }

  lemma CommitKeepsOther(s: State, s': State, i: nat)
    requires RingInv(s) && Commit(s, s') && i < |s.slots| && i != Target(s)
    ensures SlotInv(s', i)
  {
    assert SlotInv(s, i) && s'.slots[i] == s.slots[i];
    OtherStaysStable(s.slots[i], i, |s.slots|, s.log, s.pc.sample);
  }

  lemma CopyKeepsTarget(s: State, s': State)
    requires RingInv(s) && CopyCell(s, s')
    ensures SlotInv(s', Target(s))
  {
    var t := Target(s);
    assert SlotInv(s, t);
    var cs := SlotCells(s.pc.sample);
    var d := s.pc.done;
    assert s'.slots[t].cells[..d + 1] == s.slots[t].cells[..d] + [cs[d]];
    assert cs[..d + 1] == cs[..d] + [cs[d]];
  }

  lemma CommitKeepsRing(s: State, s': State)
    requires RingInv(s) && Commit(s, s')
    ensures RingInv(s')
  {
    forall i | 0 <= i < |s.slots|
      ensures SlotInv(s', i)
    {
      if i == Target(s) { CommitKeepsTarget(s, s'); } else { CommitKeepsOther(s, s', i); }
    }
  }

  lemma WriterKeepsRing(s: State, s': State)
    requires RingInv(s) && WriterStep(s, s') && !Commit(s, s')
    ensures RingInv(s')
  {
    forall i | 0 <= i < |s.slots|
      ensures SlotInv(s', i)
    {
      assert SlotInv(s, i);
      if i == Target(s) { WriterKeepsTarget(s, s'); } else { assert s'.slots[i] == s.slots[i]; }
    }
  }

  lemma WriterKeepsTarget(s: State, s': State)
    requires RingInv(s) && WriterStep(s, s') && !Commit(s, s')
    ensures SlotInv(s', Target(s))
  {
    assert SlotInv(s, Target(s));
    if CopyCell(s, s') { CopyKeepsTarget(s, s'); }
  }

  /** What a step other than a commit or a send leaves alone. */
  predicate Quiet(s: State, s': State) {
    && s'.log == s.log && s'.socket == s.socket && s'.gid == s.gid && s.nextSeq <= s'.nextSeq
    && (InFanOut(s') ==> InFanOut(s) && s'.pc.sample == s.pc.sample)
    && (InFanOut(s) ==> InFanOut(s') && s'.pc.sample == s.pc.sample)
    && (s'.pc.Idle? ==> s.pc.Idle?) && (!s.pc.Idle? ==> s'.pc.sample == s.pc.sample && s'.nextSeq == s.nextSeq)
    && (s.pc.Idle? && !s'.pc.Idle? ==>
          Seqno(s'.pc.sample) == s.nextSeq == s'.nextSeq - 1 && s'.pc.sample.hdr.gid == s.gid)
  }

  lemma QuietStep(s: State, s': State)
    requires Next(s, s') && !Commit(s, s') && !Send(s, s')
    ensures Quiet(s, s')
  {}

  lemma QuietKeepsSequence(s: State, s': State)
    requires SequenceInv(s) && Quiet(s, s')
    ensures SequenceInv(s')
  {}

  lemma UnwrittenStep(s: State, s': State)
    requires Next(s, s') && !WriterStep(s, s')
    ensures s'.slots == s.slots && s'.log == s.log && s'.nextIndex == s.nextIndex
    ensures Writing(s') == Writing(s) && (Writing(s) ==> s'.pc == s.pc)
    ensures !s'.pc.Idle? ==> SampleOk(s'.pc.sample) || (!s.pc.Idle? && s'.pc.sample == s.pc.sample)
  {}

  lemma StepKeepsRing(s: State, s': State)
    requires RingInv(s) && Next(s, s')
    ensures RingInv(s')
  {
    if Commit(s, s') {
      CommitKeepsRing(s, s');
    } else if WriterStep(s, s') {
      WriterKeepsRing(s, s');
    } else {
      UnwrittenStep(s, s');
      UnwrittenKeepsRing(s, s');
    }
  }

  lemma UnwrittenKeepsRing(s: State, s': State)
    requires RingInv(s) && s'.slots == s.slots && s'.log == s.log && s'.nextIndex == s.nextIndex
    requires Writing(s') == Writing(s) && (Writing(s) ==> s'.pc == s.pc)
    requires !s'.pc.Idle? ==> SampleOk(s'.pc.sample) || (!s.pc.Idle? && s'.pc.sample == s.pc.sample)
    ensures RingInv(s')
  {
    forall i | 0 <= i < |s.slots|
      ensures SlotInv(s', i)
    {
      assert SlotInv(s, i);
    }
  }

  lemma StepKeepsSequence(s: State, s': State)
    requires SequenceInv(s) && RingInv(s) && Next(s, s')
    ensures SequenceInv(s')
  {
    if Commit(s, s') {
      CommitKeepsSequence(s, s');
    } else if Send(s, s') {
      SendKeepsSequence(s, s');
    } else {
      QuietStep(s, s');
      QuietKeepsSequence(s, s');
    }
  }

  lemma CommitKeepsSequence(s: State, s': State)
    requires SequenceInv(s) && Commit(s, s')
    ensures SequenceInv(s')
  {
    assert InFanOut(s') && !InFanOut(s);
  }

  lemma SendKeepsSequence(s: State, s': State)
    requires SequenceInv(s) && Send(s, s')
    ensures SequenceInv(s')
  {}

  lemma StepKeepsCache(s: State, s': State)
    requires CacheInv(s) && Next(s, s')
    ensures CacheInv(s')
  {
    if FanOutStep(s, s') {
      FanOutKeepsCache(s, s');
    } else if JoinStep(s, s') {
      JoinKeepsCache(s, s');
    } else {
      LatchingStep(s, s');
    }
  }

  lemma FanOutKeepsCache(s: State, s': State)
    requires CacheInv(s) && FanOutStep(s, s')
    ensures CacheInv(s')
  {}

  lemma JoinKeepsCache(s: State, s': State)
    requires CacheInv(s) && JoinStep(s, s')
    ensures CacheInv(s')
  {}

  /** What latching leaves alone: the socket, the cache and everything the joiner writes. */
  lemma LatchingStep(s: State, s': State)
    requires BeginPublish(s, s') || LatchFails(s, s') || WriterStep(s, s')
    ensures s' == s.(slots := s'.slots, pc := s'.pc, nextSeq := s'.nextSeq, nextIndex := s'.nextIndex, log := s'.log)
    ensures !s.pc.Loaded? && !s.pc.Querying? && !s.pc.Sending? && !s'.pc.Loaded? && !s'.pc.Querying? && !s'.pc.Sending?
  {}

  lemma StepKeepsDelivery(s: State, s': State)
    requires Inv(s) && Next(s, s')
    ensures DeliveryInv(s')
  {
    if Send(s, s') {
      SendKeepsDelivery(s, s');
    } else if Commit(s, s') {
      CommitKeepsDelivery(s, s');
    } else {
      QuietStep(s, s');
      assert forall k | 0 < k <= |s.log| :: Finished(s', k) == Finished(s, k);
      QuietKeepsPending(s, s');
    }
  }

  lemma QuietKeepsPending(s: State, s': State)
    requires Inv(s) && Next(s, s') && !Commit(s, s') && !Send(s, s')
    ensures s'.joinPhase.Bumped? ==> LateSamplePending(s') && s'.joinLog <= |s.log|
    ensures s'.joinPhase.Bumped? ==> (s.joinPhase.Bumped? && s'.joinLog == s.joinLog) || s'.joinLog == |s.log|
    ensures !s'.joinPhase.Bumped? ==> s'.joinLog == 0
  {
    if JoinStep(s, s') {
      JoinKeepsPending(s, s');
    } else if !FanOutStep(s, s') {
      LatchingStep(s, s');
      QuietStep(s, s');
    }
  }

  lemma JoinKeepsPending(s: State, s': State)
    requires Inv(s) && JoinStep(s, s')
    ensures s'.joinPhase.Bumped? ==> LateSamplePending(s') && s'.joinLog <= |s.log|
    ensures s'.joinPhase.Bumped? ==> (s.joinPhase.Bumped? && s'.joinLog == s.joinLog) || s'.joinLog == |s.log|
    ensures !s'.joinPhase.Bumped? ==> s'.joinLog == 0
  {}

  lemma CommitKeepsDelivery(s: State, s': State)
    requires Inv(s) && Commit(s, s')
    ensures DeliveryInv(s')
  {
    assert InFanOut(s') && !InFanOut(s);
    assert s'.socket == s.socket && s'.log == s.log + [s.pc.sample];
    forall k | s'.joinLog < k <= |s'.log| && Finished(s', k)
      ensures s.joinPhase.Bumped? ==> WireMessage(s'.log[k - 1], true) in s'.socket
    {
      assert k <= |s.log| && Finished(s, k) && s'.log[k - 1] == s.log[k - 1];
    }
  }

  lemma SendKeepsDelivery(s: State, s': State)
    requires Inv(s) && Send(s, s')
    ensures DeliveryInv(s')
  {
    assert s'.log == s.log && s.socket <= s'.socket;
    forall k | s'.joinLog < k <= |s'.log| && Finished(s', k)
      ensures s.joinPhase.Bumped? ==> WireMessage(s'.log[k - 1], true) in s'.socket
    {
      if s.joinPhase.Bumped? && Finished(s, k) {
        assert WireMessage(s.log[k - 1], true) in s.socket;
      } else if s.joinPhase.Bumped? {
        assert s.log[k - 1] == s.pc.sample && s.joinerCached;
        assert s'.socket[|s.socket|] == WireMessage(s.log[k - 1], true);
      }
    }
    SendMatchesLog(s, s');
  }

  lemma SendMatchesLog(s: State, s': State)
    requires Inv(s) && Send(s, s')
    ensures DatagramsMatchLog(s'.socket, s'.log)
  {
    forall j, k | 0 <= j < |s'.socket| && 0 <= k < |s.log|
        && s'.socket[j].hdr.sequenceNumber == Seqno(s.log[k])
      ensures s'.socket[j] == WireMessage(s.log[k], true)
    {
      if j == |s.socket| {
        assert InFanOut(s) && k == |s.log| - 1;
      }
    }
  }

  lemma StepKeepsOrigin(s: State, s': State)
    requires OriginInv(s) && RingInv(s) && Next(s, s')
    ensures OriginInv(s')
  {
    if Commit(s, s') {
      assert s'.log == s.log + [s.pc.sample] && s'.socket == s.socket;
    } else if Send(s, s') {
      assert s'.log == s.log && s'.socket[..|s.socket|] == s.socket;
    } else {
      QuietStep(s, s');
      QuietKeepsOrigin(s, s');
    }
  }

  lemma QuietKeepsOrigin(s: State, s': State)
    requires OriginInv(s) && Quiet(s, s')
    ensures OriginInv(s')
  {}

  lemma StepKeepsInv(s: State, s': State)
    requires Inv(s) && Next(s, s')
    ensures Inv(s')
  {
    StepKeepsRing(s, s');
    StepKeepsSequence(s, s');
    StepKeepsCache(s, s');
    StepKeepsDelivery(s, s');
    StepKeepsOrigin(s, s');
  }

  // ----- Runs -----

  ghost predicate Run(run: seq<State>) {
    && |run| > 0 && Init(run[0])
    && (forall t | 0 < t < |run| :: Linked(run, t))
  }

  predicate Linked(run: seq<State>, t: nat)
    requires 0 < t < |run|
  {
    Next(run[t - 1], run[t])
  }

  lemma {:induction false} RunInv(run: seq<State>, t: nat)
    requires Run(run) && t < |run|
    ensures Inv(run[t])
  {
    if t == 0 {
      InitInv(run[0]);
    } else {
      RunInv(run, t - 1);
      assert Linked(run, t);
      StepKeepsInv(run[t - 1], run[t]);
    }
  }

  /** What only grows: the log, the socket, the generation, the slots' seq words. */
  predicate Grows(s: State, s': State) {
    && s.log <= s'.log && s.socket <= s'.socket
    && s.generation <= s'.generation && s.cachedGeneration <= s'.cachedGeneration
    && s.gid == s'.gid && |s.slots| == |s'.slots| && s.joinIndex == s'.joinIndex
    && (s.joinPhase.Bumped? ==>
        s'.joinPhase.Bumped? && s'.joinLog == s.joinLog && s'.joinGeneration == s.joinGeneration)
    && (forall i | 0 <= i < |s.slots| :: s.slots[i].seqWord <= s'.slots[i].seqWord)
    && (forall k | 0 < k <= |s.log| :: Finished(s, k) ==> Finished(s', k))
  }

  lemma StepGrows(s: State, s': State)
    requires RingInv(s) && Next(s, s') && PendingSeenGrows(s)
    ensures Grows(s, s')
  {
    if WriterStep(s, s') {
      WriterGrows(s, s');
    } else if JoinStep(s, s') {
      assert forall k | 0 < k <= |s.log| :: Finished(s, k) ==> Finished(s', k);
    } else {
      PublisherGrows(s, s');
    }
  }

  lemma WriterGrows(s: State, s': State)
    requires RingInv(s) && WriterStep(s, s')
    ensures Grows(s, s')
  {
    WordsGrow(s, s');
    assert s.log <= s'.log && s'.socket == s.socket;
    assert forall k | 0 < k <= |s.log| :: Finished(s', k);
  }

  lemma PublisherGrows(s: State, s': State)
    requires BeginPublish(s, s') || LatchFails(s, s') || FanOutStep(s, s')
    requires PendingSeenGrows(s)
    ensures Grows(s, s')
  {
    assert s'.log == s.log && s'.slots == s.slots && s.socket <= s'.socket;
    assert InFanOut(s') ==> InFanOut(s);
    assert forall k | 0 < k <= |s.log| :: Finished(s, k) ==> Finished(s', k);
  }

  lemma WordsGrow(s: State, s': State)
    requires RingInv(s) && WriterStep(s, s')
    ensures |s.slots| == |s'.slots|
    ensures forall i | 0 <= i < |s.slots| :: s.slots[i].seqWord <= s'.slots[i].seqWord
  {
    assert SlotInv(s, Target(s));
  }

  lemma GrowsTransitive(a: State, b: State, c: State)
    requires Grows(a, b) && Grows(b, c)
    ensures Grows(a, c)
  {
    forall k | 0 < k <= |a.log| && Finished(a, k)
      ensures Finished(c, k)
    {
      assert Finished(b, k);
    }
    forall i | 0 <= i < |a.slots|
      ensures a.slots[i].seqWord <= c.slots[i].seqWord
    {
      assert a.slots[i].seqWord <= b.slots[i].seqWord;
    }
  }

  /** A query under way was triggered by a generation above the cached one. */
  predicate PendingSeenGrows(s: State) {
    s.pc.Loaded? || s.pc.Querying? ==> s.cachedGeneration < s.pc.seen
  }

  lemma {:induction false} RunPending(run: seq<State>, t: nat)
    requires Run(run) && t < |run|
    ensures PendingSeenGrows(run[t])
  {
    if t > 0 {
      RunPending(run, t - 1);
      assert Linked(run, t);
    }
  }

  lemma RunStepGrows(run: seq<State>, u: nat)
    requires Run(run) && 0 < u < |run|
    ensures Grows(run[u - 1], run[u])
  {
    RunInv(run, u - 1);
    RunPending(run, u - 1);
    assert Linked(run, u);
    StepGrows(run[u - 1], run[u]);
  }

  lemma {:induction false} RunGrows(run: seq<State>, t: nat, u: nat)
    requires Run(run) && t <= u < |run|
    ensures Grows(run[t], run[u])
    decreases u
  {
    if t < u {
      RunGrows(run, t, u - 1);
      RunStepGrows(run, u);
      GrowsTransitive(run[t], run[u - 1], run[u]);
    }
  }

  /** A slot that holds sample k has held it since it was committed. */
  lemma HeldSince(run: seq<State>, a: nat, b: nat, i: nat, k: nat)
    requires Run(run) && a <= b < |run| && 1 <= k <= |run[a].log| && i < |run[b].slots| && run[b].slots[i].seqWord == 2 * k
    ensures i < |run[a].slots| && run[a].slots[i].seqWord == 2 * k
  {
    RunInv(run, a);
    RunInv(run, b);
    RunGrows(run, a, b);
    assert SlotInv(run[a], i) && SlotInv(run[b], i);
    NoOlderHeld(run[a], i, k);
  }

  lemma NoOlderHeld(s: State, i: nat, k: nat)
    requires RingInv(s) && i < |s.slots| && 1 <= k <= |s.log| && Arith.Residue(k - 1, |s.slots|) == i
    ensures s.slots[i].seqWord >= 2 * k
  {
    assert SlotInv(s, i);
    var k' := s.slots[i].seqWord / 2;
    if 0 < k' < k && k < k' + |s.slots| { Arith.ResidueStep(k' - 1, k - k', |s.slots|); }
  }

  /** A run goes on with any step of its last state. */
  lemma Append(run: seq<State>, s: State)
    requires Run(run) && Next(Last(run), s)
    ensures Run(run + [s])
  {
    var run' := run + [s];
    forall t | 0 < t < |run'|
      ensures Linked(run', t)
    {
      if t < |run| { assert Linked(run, t); }
    }
  }
}
