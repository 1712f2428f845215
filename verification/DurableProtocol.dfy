/** LatchProtocol with the durable segments behind over-cap samples.

    Any number of threads publish on one publisher.  A thread stages its segment before it
    takes cache_mutex, hands it to the ring inside, takes over the segment the ring evicts,
    and destroys that one after it has dropped the mutex.  Creating, handing over and
    destroying are steps of their own, interleaved with everybody's.

    `base` is the world of LatchProtocol: forgetting the segments turns a run of this
    machine into a run of that one (BaseRun). */
module DurableProtocol {
  import Arith
  import opened Wire
  import opened Schedule
  import L = LatchProtocol

  /** What the thread in the critical section still owes the books after its latch. */
  datatype Phase = Settled | MustDrop | MustEvict | MustAdopt

  /** `live`: the names in /dev/shm and what they hold; `staged` and `evicted`: the handles
      each thread holds; `owners`: durable_segs; `born`: every segment there ever was. */
  datatype State = State(
    base: L.State,
    live: map<SegmentId, Cells>,
    staged: map<nat, SegmentId>,
    owners: seq<Option<SegmentId>>,
    evicted: map<nat, SegmentId>,
    writer: nat,
    phase: Phase,
    born: map<SegmentId, Cells>)

  predicate Init(s: State) {
    && L.Init(s.base) && s.live == map[] && s.staged == map[] && s.evicted == map[] && s.born == map[]
    && |s.owners| == |s.base.slots| && (forall i | 0 <= i < |s.owners| :: s.owners[i].None?)
    && s.phase.Settled?
  }

  /** Thread t is inside the critical section. */
  predicate Inside(s: State, t: nat) { !s.base.pc.Idle? && s.writer == t }

  /** The slot the latest record went to. */
  function Newest(s: State): nat
    requires |s.base.slots| > 0 && s.base.nextIndex > 1
  {
    Arith.Residue(s.base.nextIndex - 2, |s.base.slots|)
  }

  // ----- Steps -----

  predicate Stage(s: State, s': State, t: nat) {
    && t !in s.staged && t !in s.evicted && !Inside(s, t)
    && t in s'.staged
    && var x := s'.staged[t];
    && x !in s.born && x in s'.born && |s'.born[x]| > TL_EMBED_CAP
    && s' == s.(staged := s.staged[t := x], live := s.live[x := s'.born[x]], born := s.born[x := s'.born[x]])
  }

  /** The sample carries the thread's staged segment, if it has one. */
  predicate Carries(s: State, t: nat, sample: Sample) {
    && (sample.staged.Some? <==> t in s.staged)
    && (t in s.staged ==>
          && NamesSegment(sample.staged.value, s.staged[t])
          && s.staged[t] in s.live && s.live[s.staged[t]] == sample.data)
  }

  predicate Enter(s: State, s': State, t: nat) {
    && L.BeginPublish(s.base, s'.base) && t !in s.evicted && Carries(s, t, s'.base.pc.sample)
    && s' == s.(base := s'.base, writer := t)
  }

  predicate Fail(s: State, s': State, t: nat) {
    Inside(s, t) && L.LatchFails(s.base, s'.base) && s' == s.(base := s'.base, phase := MustDrop)
  }

  /** A latch that failed destroys the segment it was given. */
  predicate Drop(s: State, s': State, t: nat) {
    && Inside(s, t) && s.phase.MustDrop?
    && s' == s.(phase := Settled, staged := s.staged - {t},
                live := if t in s.staged then s.live - {s.staged[t]} else s.live)
  }

  predicate Write(s: State, s': State, t: nat) {
    && Inside(s, t) && L.WriterStep(s.base, s'.base) && !L.Commit(s.base, s'.base)
    && s' == s.(base := s'.base)
  }

  predicate Commit(s: State, s': State, t: nat) {
    Inside(s, t) && L.Commit(s.base, s'.base) && s' == s.(base := s'.base, phase := MustEvict)
  }

  /** evicted_out takes the slot's old segment, only after the new record is committed. */
  predicate Evict(s: State, s': State, t: nat) {
    && Inside(s, t) && s.phase.MustEvict? && |s.base.slots| > 0 && s.base.nextIndex > 1 && Newest(s) < |s.owners|
    && s' == s.(phase := MustAdopt, owners := s.owners[Newest(s) := None],
                evicted := match s.owners[Newest(s)]
                           case Some(x) => s.evicted[t := x]
                           case None => s.evicted)
  }

  predicate Adopt(s: State, s': State, t: nat) {
    && Inside(s, t) && s.phase.MustAdopt? && |s.base.slots| > 0 && s.base.nextIndex > 1 && Newest(s) < |s.owners|
    && s' == s.(phase := Settled, staged := s.staged - {t},
                owners := s.owners[Newest(s) := if t in s.staged then Some(s.staged[t]) else None])
  }

  predicate FanOut(s: State, s': State, t: nat) {
    Inside(s, t) && s.phase.Settled? && L.FanOutStep(s.base, s'.base) && s' == s.(base := s'.base)
  }

  /** The evicted segment dies after the mutex is dropped. */
  predicate Destroy(s: State, s': State, t: nat) {
    && t in s.evicted && !Inside(s, t)
    && s' == s.(evicted := s.evicted - {t}, live := s.live - {s.evicted[t]})
  }

  predicate Elsewhere(s: State, s': State) {
    L.JoinStep(s.base, s'.base) && s' == s.(base := s'.base)
  }

  predicate SegmentStep(s: State, s': State, t: nat) {
    Stage(s, s', t) || Drop(s, s', t) || Evict(s, s', t) || Adopt(s, s', t) || Destroy(s, s', t)
  }

  predicate LatchStep(s: State, s': State, t: nat) {
    Enter(s, s', t) || Fail(s, s', t) || Write(s, s', t) || Commit(s, s', t) || FanOut(s, s', t) || Elsewhere(s, s')
  }

  predicate Step(s: State, s': State, t: nat) { SegmentStep(s, s', t) || LatchStep(s, s', t) }

  // ----- Runs -----

  ghost predicate Run(run: seq<State>, actor: seq<nat>) {
    && |run| == |actor| > 0 && Init(run[0])
    && (forall u | 0 < u < |run| :: Linked(run, actor, u))
  }

  predicate Linked(run: seq<State>, actor: seq<nat>, u: nat)
    requires 0 < u < |run| == |actor|
  {
    Step(run[u - 1], run[u], actor[u])
  }

  function Bases(run: seq<State>): (r: seq<L.State>)
    ensures |r| == |run|
  {
    seq(|run|, t requires 0 <= t < |run| => run[t].base)
  }

  lemma BaseStep(s: State, s': State, t: nat)
    requires Step(s, s', t)
    ensures L.Next(s.base, s'.base)
  {
    if SegmentStep(s, s', t) {
      assert L.OtherMutation(s.base, s'.base);
    }
  }

  /** Forgetting the segments leaves a run of LatchProtocol. */
  lemma BaseRun(run: seq<State>, actor: seq<nat>)
    requires Run(run, actor)
    ensures L.Run(Bases(run))
  {
    forall u | 0 < u < |run|
      ensures L.Linked(Bases(run), u)
    {
      assert Linked(run, actor, u);
      BaseStep(run[u - 1], run[u], actor[u]);
    }
  }

  // ----- The books -----

  datatype Handle = Caller(t: nat) | InSlot(i: nat) | Evictee(t: nat)

  predicate Owns(s: State, h: Handle, x: SegmentId) {
    match h
    case Caller(t) => t in s.staged && s.staged[t] == x
    case InSlot(i) => i < |s.owners| && s.owners[i] == Some(x)
    case Evictee(t) => t in s.evicted && s.evicted[t] == x
  }

  ghost predicate Owned(s: State, x: SegmentId) { exists h :: Owns(s, h, x) }

  /** A segment exists exactly as long as it has an owner, it has only one, and it never
      changes. */
  ghost predicate BooksInv(s: State) {
    && (forall x :: x in s.live <==> Owned(s, x))
    && (forall h, g, x :: Owns(s, h, x) && Owns(s, g, x) ==> h == g)
    && (forall x | x in s.live :: x in s.born && s.born[x] == s.live[x])
  }

  /** Handle h's segment x passes to handle g, which was empty. */
  ghost predicate Passes(s: State, s': State, h: Handle, g: Handle, x: SegmentId) {
    && Owns(s, h, x) && (forall y :: !Owns(s, g, y))
    && forall k, y :: Owns(s', k, y) <==> (Owns(s, k, y) && k != h) || (k == g && y == x)
  }

  lemma PassingBalances(s: State, s': State, h: Handle, g: Handle, x: SegmentId)
    requires BooksInv(s) && Passes(s, s', h, g, x) && s'.live == s.live && s'.born == s.born
    ensures BooksInv(s')
  {
    assert Owns(s', g, x);
    forall y
      ensures Owned(s', y) <==> Owned(s, y)
    {
      if k :| Owns(s, k, y) && k != h { assert Owns(s', k, y); }
    }
  }

  lemma StageBalances(s: State, s': State, t: nat)
    requires BooksInv(s) && Stage(s, s', t)
    ensures BooksInv(s')
  {
    var x := s'.staged[t];
    assert Owns(s', Caller(t), x) && !Owned(s, x);
    forall h, y
      ensures Owns(s', h, y) <==> Owns(s, h, y) || (h == Caller(t) && y == x)
    {}
    forall y
      ensures Owned(s', y) <==> Owned(s, y) || y == x
    {
      if h :| Owns(s, h, y) { assert Owns(s', h, y); }
    }
  }

  /** Handle h is emptied and its segment destroyed. */
  lemma DestroyingBalances(s: State, s': State, h: Handle, x: SegmentId)
    requires BooksInv(s) && Owns(s, h, x) && s'.live == s.live - {x} && s'.born == s.born
    requires forall k, y :: Owns(s', k, y) <==> Owns(s, k, y) && k != h
    ensures BooksInv(s')
  {
    forall y
      ensures Owned(s', y) <==> Owned(s, y) && y != x
    {
      if k :| Owns(s, k, y) && y != x { assert Owns(s', k, y); }
    }
  }

  // ----- The thread in the critical section -----

  predicate Latching(s: State) { s.base.pc.Assigned? || L.Writing(s.base) }

  /** The sample in hand, its segment, and who holds that segment right now. */
  predicate CallInv(s: State) {
    && |s.owners| == |s.base.slots| > 0
    && (!s.phase.Settled? ==> s.base.pc.Fenced? && (s.phase.MustDrop? <==> !s.base.pc.latched))
    && (!s.base.pc.Idle? && (Latching(s) || !s.phase.Settled?) ==> Carries(s, s.writer, s.base.pc.sample))
    && (!s.base.pc.Idle? && (Latching(s) || s.phase.MustDrop? || s.phase.MustEvict?) ==> s.writer !in s.evicted)
    && (L.InFanOut(s.base) ==> s.base.nextIndex > 1)
    && (L.InFanOut(s.base) && s.phase.MustAdopt? ==> s.owners[Newest(s)].None?)
    && (L.InFanOut(s.base) && s.phase.Settled? ==> OwnsSampleOf(s, Newest(s), s.base.pc.sample))
  }

  /** Slot i owns the live segment the sample's descriptor names. */
  predicate OwnsSampleOf(s: State, i: nat, sample: Sample) {
    sample.staged.Some? ==>
      && i < |s.owners| && s.owners[i].Some? && NamesSegment(sample.staged.value, s.owners[i].value)
      && s.owners[i].value in s.live && s.live[s.owners[i].value] == sample.data
  }

  // ----- What a descriptor in a stable slot names -----

  /** The newest record's segment is still in its caller's hands until it is adopted. */
  predicate NotYetAdopted(s: State, i: nat) {
    && (s.phase.MustEvict? || s.phase.MustAdopt?) && |s.base.slots| > 0 && s.base.nextIndex > 1
    && i == Newest(s)
  }

  predicate Stable(s: State, i: nat) {
    && i < |s.base.slots| && s.base.slots[i].seqWord % 2 == 0
    && 0 < s.base.slots[i].seqWord / 2 <= |s.base.log|
  }

  function Held(s: State, i: nat): Sample
    requires Stable(s, i)
  {
    s.base.log[s.base.slots[i].seqWord / 2 - 1]
  }

  predicate SlotBacked(s: State, i: nat) {
    Stable(s, i) ==>
      if NotYetAdopted(s, i) then Held(s, i) == s.base.log[|s.base.log| - 1]
      else OwnsSampleOf(s, i, Held(s, i))
  }

  predicate SlotsInv(s: State) {
    forall i | 0 <= i < |s.base.slots| :: SlotBacked(s, i)
  }

  /** Every descriptor ever latched names the segment that holds its sample's bytes. */
  predicate ContentInv(s: State) {
    && (forall k | 0 <= k < |s.base.log| :: Described(s, s.base.log[k]))
    && (!s.base.pc.Idle? ==> Described(s, s.base.pc.sample))
  }

  predicate Described(s: State, sample: Sample) {
    sample.staged.Some? ==>
      && |sample.staged.value| == DESCRIPTOR_BYTES
      && var x := sample.staged.value[OWNER_ID_OFFSET];
      && x >= 0 && x in s.born && s.born[x] == sample.data
  }

  /** Only committed samples are sent by descriptor. */
  ghost predicate WireInv(s: State) {
    forall j | 0 <= j < |s.base.socket| && s.base.socket[j].hdr.viaShm :: SentByDescriptor(s.base.log, s.base.socket[j])
  }

  ghost predicate SentByDescriptor(log: seq<Sample>, m: Message) {
    exists k: nat :: IsDescriptorOf(log, m, k)
  }

  ghost predicate Inv(s: State) {
    BooksInv(s) && CallInv(s) && SlotsInv(s) && ContentInv(s) && WireInv(s)
  }

  // ----- Every step keeps the invariants -----

  lemma InitInv(s: State)
    requires Init(s)
    ensures Inv(s)
  {
    assert forall h, x :: !Owns(s, h, x);
  }

  lemma EvictBalances(s: State, s': State, t: nat)
    requires BooksInv(s) && CallInv(s) && Evict(s, s', t)
    ensures BooksInv(s')
  {
    var i := Newest(s);
    if s.owners[i].Some? {
      assert Passes(s, s', InSlot(i), Evictee(t), s.owners[i].value);
      PassingBalances(s, s', InSlot(i), Evictee(t), s.owners[i].value);
    } else {
      SameHandles(s, s');
    }
  }

  lemma AdoptBalances(s: State, s': State, t: nat)
    requires BooksInv(s) && CallInv(s) && Adopt(s, s', t)
    ensures BooksInv(s')
  {
    var i := Newest(s);
    if t in s.staged {
      assert Passes(s, s', Caller(t), InSlot(i), s.staged[t]);
      PassingBalances(s, s', Caller(t), InSlot(i), s.staged[t]);
    } else {
      SameHandles(s, s');
    }
  }

  lemma DropBalances(s: State, s': State, t: nat)
    requires BooksInv(s) && Drop(s, s', t)
    ensures BooksInv(s')
  {
    if t in s.staged {
      DestroyingBalances(s, s', Caller(t), s.staged[t]);
    } else {
      SameHandles(s, s');
    }
  }

  lemma DestroyBalances(s: State, s': State, t: nat)
    requires BooksInv(s) && Destroy(s, s', t)
    ensures BooksInv(s')
  {
    DestroyingBalances(s, s', Evictee(t), s.evicted[t]);
  }

  lemma SegmentStepBalances(s: State, s': State, t: nat)
    requires BooksInv(s) && CallInv(s) && SegmentStep(s, s', t)
    ensures BooksInv(s')
  {
    if Stage(s, s', t) {
      StageBalances(s, s', t);
    } else if Evict(s, s', t) {
      EvictBalances(s, s', t);
    } else if Adopt(s, s', t) {
      AdoptBalances(s, s', t);
    } else if Drop(s, s', t) {
      DropBalances(s, s', t);
    } else {
      DestroyBalances(s, s', t);
    }
  }

  lemma SameHandles(s: State, s': State)
    requires BooksInv(s) && s'.live == s.live && s'.born == s.born
    requires forall h, x :: Owns(s', h, x) <==> Owns(s, h, x)
    ensures BooksInv(s')
  {
    forall x
      ensures Owned(s', x) <==> Owned(s, x)
    {
      if h :| Owns(s, h, x) { assert Owns(s', h, x); }
    }
  }

  /** The segment handle h gives up is in no slot and with no other thread. */
  lemma NobodyElses(s: State, h: Handle, x: SegmentId)
    requires BooksInv(s) && Owns(s, h, x)
    ensures forall u | u in s.staged && h != Caller(u) :: s.staged[u] != x
    ensures forall i | 0 <= i < |s.owners| && h != InSlot(i) :: s.owners[i] != Some(x)
  {
    forall u | u in s.staged && h != Caller(u)
      ensures s.staged[u] != x
    {
      assert Owns(s, Caller(u), s.staged[u]);
    }
    forall i | 0 <= i < |s.owners| && h != InSlot(i)
      ensures s.owners[i] != Some(x)
    {
      if s.owners[i].Some? { assert Owns(s, InSlot(i), s.owners[i].value); }
    }
  }

  lemma StageKeeps(s: State, s': State, t: nat)
    requires BooksInv(s) && CallInv(s) && SlotsInv(s) && Stage(s, s', t)
    ensures CallInv(s') && SlotsInv(s')
  {
    assert s'.staged[t] !in s.live;
    SlotsKept(s, s');
  }

  /** Slots stay backed while their segments stay. */
  lemma SlotsKept(s: State, s': State)
    requires SlotsInv(s) && s'.base == s.base && |s'.owners| == |s.owners|
    requires forall i | 0 <= i < |s.base.slots| :: NotYetAdopted(s', i) == NotYetAdopted(s, i)
    requires forall i | 0 <= i < |s.owners| && s.owners[i].Some? && s.owners[i].value in s.live ::
               s'.owners[i] == s.owners[i] && s.owners[i].value in s'.live
               && s'.live[s.owners[i].value] == s.live[s.owners[i].value]
    ensures SlotsInv(s')
  {
    forall i | 0 <= i < |s.base.slots|
      ensures SlotBacked(s', i)
    {
      assert SlotBacked(s, i);
    }
  }

  lemma DropKeeps(s: State, s': State, t: nat)
    requires BooksInv(s) && CallInv(s) && SlotsInv(s) && Drop(s, s', t)
    ensures CallInv(s') && SlotsInv(s')
  {
    if t in s.staged {
      assert Owns(s, Caller(t), s.staged[t]);
      NobodyElses(s, Caller(t), s.staged[t]);
    }
    SlotsKept(s, s');
  }

  lemma DestroyKeeps(s: State, s': State, t: nat)
    requires BooksInv(s) && CallInv(s) && SlotsInv(s) && Destroy(s, s', t)
    ensures CallInv(s') && SlotsInv(s')
  {
    assert Owns(s, Evictee(t), s.evicted[t]);
    NobodyElses(s, Evictee(t), s.evicted[t]);
    SlotsKept(s, s');
  }

  lemma EvictKeeps(s: State, s': State, t: nat)
    requires CallInv(s) && SlotsInv(s) && Evict(s, s', t)
    ensures CallInv(s') && SlotsInv(s')
  {
    forall i | 0 <= i < |s.base.slots|
      ensures SlotBacked(s', i)
    {
      assert SlotBacked(s, i);
    }
  }

  lemma AdoptKeeps(s: State, s': State, t: nat)
    requires CallInv(s) && SlotsInv(s) && Adopt(s, s', t)
    requires |s.base.log| > 0 && s.base.log[|s.base.log| - 1] == s.base.pc.sample
    ensures CallInv(s') && SlotsInv(s')
  {
    forall i | 0 <= i < |s.base.slots|
      ensures SlotBacked(s', i)
    {
      assert SlotBacked(s, i);
    }
  }

  lemma SegmentStepKeeps(s: State, s': State, t: nat)
    requires L.SequenceInv(s.base) && BooksInv(s) && CallInv(s) && SlotsInv(s) && SegmentStep(s, s', t)
    ensures CallInv(s') && SlotsInv(s')
  {
    if Stage(s, s', t) {
      StageKeeps(s, s', t);
    } else if Evict(s, s', t) {
      EvictKeeps(s, s', t);
    } else if Adopt(s, s', t) {
      assert L.InFanOut(s.base);
      AdoptKeeps(s, s', t);
    } else if Drop(s, s', t) {
      DropKeeps(s, s', t);
    } else {
      DestroyKeeps(s, s', t);
    }
  }

  /** A step of the latch that writes no slot. */
  lemma UnwrittenKeepsSlots(s: State, s': State)
    requires SlotsInv(s) && s'.base.slots == s.base.slots && s'.base.log == s.base.log
    requires s'.base.nextIndex == s.base.nextIndex && s'.owners == s.owners && s'.live == s.live
    requires (s'.phase.MustEvict? || s'.phase.MustAdopt?) == (s.phase.MustEvict? || s.phase.MustAdopt?)
    ensures SlotsInv(s')
  {
    forall i | 0 <= i < |s.base.slots|
      ensures SlotBacked(s', i)
    {
      assert SlotBacked(s, i);
    }
  }

  lemma EnterKeeps(s: State, s': State, t: nat)
    requires CallInv(s) && SlotsInv(s) && Enter(s, s', t)
    ensures CallInv(s') && SlotsInv(s')
  {
    UnwrittenKeepsSlots(s, s');
  }

  lemma FailKeeps(s: State, s': State, t: nat)
    requires CallInv(s) && SlotsInv(s) && Fail(s, s', t)
    ensures CallInv(s') && SlotsInv(s')
  {
    UnwrittenKeepsSlots(s, s');
  }

  lemma FanOutKeeps(s: State, s': State, t: nat)
    requires CallInv(s) && SlotsInv(s) && FanOut(s, s', t)
    ensures CallInv(s') && SlotsInv(s')
  {
    UnwrittenKeepsSlots(s, s');
  }

  lemma ElsewhereKeeps(s: State, s': State)
    requires CallInv(s) && SlotsInv(s) && Elsewhere(s, s')
    ensures CallInv(s') && SlotsInv(s')
  {
    UnwrittenKeepsSlots(s, s');
  }

  lemma WriteKeeps(s: State, s': State, t: nat)
    requires L.RingInv(s.base) && CallInv(s) && SlotsInv(s) && Write(s, s', t)
    ensures CallInv(s') && SlotsInv(s')
  {
    WriteTouchesTarget(s.base, s'.base);
    forall i | 0 <= i < |s.base.slots|
      ensures SlotBacked(s', i)
    {
      assert SlotBacked(s, i);
    }
  }

  /** A write in progress leaves its slot odd and every other slot alone. */
  lemma WriteTouchesTarget(b: L.State, b': L.State)
    requires L.RingInv(b) && L.WriterStep(b, b') && !L.Commit(b, b')
    ensures |b'.slots| == |b.slots| && b'.log == b.log && b'.nextIndex == b.nextIndex && L.Writing(b')
    ensures b'.slots[L.Target(b)].seqWord % 2 == 1
    ensures forall i | 0 <= i < |b.slots| && i != L.Target(b) :: b'.slots[i] == b.slots[i]
    ensures b'.pc.sample == b.pc.sample && !b.pc.Idle? && (b.pc.Assigned? || L.Writing(b))
  {
    assert L.SlotInv(b, L.Target(b));
  }

  lemma CommitKeeps(s: State, s': State, t: nat)
    requires L.RingInv(s.base) && CallInv(s) && SlotsInv(s) && Commit(s, s', t)
    ensures CallInv(s') && SlotsInv(s')
  {
    assert Newest(s') == L.Target(s.base);
    forall i | 0 <= i < |s.base.slots|
      ensures SlotBacked(s', i)
    {
      assert SlotBacked(s, i) && L.SlotInv(s.base, i);
    }
  }

  lemma LatchStepKeeps(s: State, s': State, t: nat)
    requires L.RingInv(s.base) && CallInv(s) && SlotsInv(s) && LatchStep(s, s', t)
    ensures CallInv(s') && SlotsInv(s')
  {
    if Enter(s, s', t) {
      EnterKeeps(s, s', t);
    } else if Fail(s, s', t) {
      FailKeeps(s, s', t);
    } else if Write(s, s', t) {
      WriteKeeps(s, s', t);
    } else if Commit(s, s', t) {
      CommitKeeps(s, s', t);
    } else if FanOut(s, s', t) {
      FanOutKeeps(s, s', t);
    } else {
      ElsewhereKeeps(s, s');
    }
  }

  /** A descriptor once described stays so: names are never reused. */
  lemma DescribedLasts(s: State, s': State, sample: Sample)
    requires Described(s, sample) && forall x | x in s.born :: x in s'.born && s'.born[x] == s.born[x]
    ensures Described(s', sample)
  {}

  lemma BornLasts(s: State, s': State, t: nat)
    requires Step(s, s', t)
    ensures forall x | x in s.born :: x in s'.born && s'.born[x] == s.born[x]
  {}

  lemma CarriedIsDescribed(s: State, t: nat, sample: Sample)
    requires BooksInv(s) && Carries(s, t, sample)
    ensures Described(s, sample)
  {}

  lemma StepKeepsContent(s: State, s': State, t: nat)
    requires BooksInv(s) && ContentInv(s) && Step(s, s', t)
    ensures ContentInv(s')
  {
    BornLasts(s, s', t);
    SampleInHand(s, s', t);
    if Enter(s, s', t) { CarriedIsDescribed(s, t, s'.base.pc.sample); }
    forall k | 0 <= k < |s'.base.log|
      ensures Described(s', s'.base.log[k])
    {
      DescribedLasts(s, s', s'.base.log[k]);
    }
    if !s'.base.pc.Idle? {
      DescribedLasts(s, s', s'.base.pc.sample);
    }
  }

  /** The log grows only by the sample in hand, and that changes only on entry. */
  lemma SampleInHand(s: State, s': State, t: nat)
    requires Step(s, s', t)
    ensures s'.base.log == s.base.log || (!s.base.pc.Idle? && s'.base.log == s.base.log + [s.base.pc.sample])
    ensures !s'.base.pc.Idle? && !Enter(s, s', t) ==> !s.base.pc.Idle? && s'.base.pc.sample == s.base.pc.sample
  {}

  /** The socket grows only by the message of the sample in hand. */
  lemma SocketStep(s: State, s': State, t: nat)
    requires Step(s, s', t)
    ensures s'.base.socket == s.base.socket
            || (s.base.pc.Sending? && s'.base.log == s.base.log
                && s'.base.socket == s.base.socket + [WireMessage(s.base.pc.sample, s.base.pc.latched)])
  {}

  lemma StepKeepsWire(s: State, s': State, t: nat)
    requires L.RingInv(s.base) && L.SequenceInv(s.base) && WireInv(s) && Step(s, s', t)
    ensures WireInv(s')
  {
    SampleInHand(s, s', t);
    SocketStep(s, s', t);
    forall j | 0 <= j < |s'.base.socket| && s'.base.socket[j].hdr.viaShm
      ensures SentByDescriptor(s'.base.log, s'.base.socket[j])
    {
      if j < |s.base.socket| {
        assert s'.base.socket[j] == s.base.socket[j] && SentByDescriptor(s.base.log, s.base.socket[j]);
        var k: nat :| IsDescriptorOf(s.base.log, s.base.socket[j], k);
        assert IsDescriptorOf(s'.base.log, s.base.socket[j], k);
      } else {
        assert s.base.pc.latched && L.InFanOut(s.base);
        assert IsDescriptorOf(s.base.log, s'.base.socket[j], |s.base.log| - 1);
      }
    }
  }

  lemma StepKeepsInv(s: State, s': State, t: nat)
    requires L.RingInv(s.base) && L.SequenceInv(s.base) && Inv(s) && Step(s, s', t)
    ensures Inv(s')
  {
    StepKeepsOwnership(s, s', t);
    StepKeepsContent(s, s', t);
    StepKeepsWire(s, s', t);
  }

  lemma StepKeepsOwnership(s: State, s': State, t: nat)
    requires L.RingInv(s.base) && L.SequenceInv(s.base) && Inv(s) && Step(s, s', t)
    ensures BooksInv(s') && CallInv(s') && SlotsInv(s')
  {
    if SegmentStep(s, s', t) {
      SegmentStepBalances(s, s', t);
      SegmentStepKeeps(s, s', t);
    } else {
      SameHandles(s, s');
      LatchStepKeeps(s, s', t);
    }
  }

  lemma BaseInv(run: seq<State>, actor: seq<nat>, u: nat)
    requires Run(run, actor) && u < |run|
    ensures L.RingInv(run[u].base) && L.SequenceInv(run[u].base)
  {
    BaseRun(run, actor);
    L.RunInv(Bases(run), u);
  }

  /** DURABLE-SEGMENT OWNERSHIP, at every step of every interleaving. */
  lemma {:induction false} RunInv(run: seq<State>, actor: seq<nat>, u: nat)
    requires Run(run, actor) && u < |run|
    ensures Inv(run[u])
  {
    if u == 0 {
      InitInv(run[0]);
    } else {
      RunInv(run, actor, u - 1);
      RunStepKeepsInv(run, actor, u);
    }
  }

  lemma RunStepKeepsInv(run: seq<State>, actor: seq<nat>, u: nat)
    requires Run(run, actor) && 0 < u < |run| && Inv(run[u - 1])
    ensures Inv(run[u])
  {
    BaseInv(run, actor, u - 1);
    assert Linked(run, actor, u);
    StepKeepsInv(run[u - 1], run[u], actor[u]);
  }

  /** What a reader may rely on: a stable slot's descriptor names a live segment with the
      sample's bytes. */
  lemma StableNamesLive(run: seq<State>, actor: seq<nat>, u: nat, i: nat)
    requires Run(run, actor) && u < |run| && Stable(run[u], i) && Held(run[u], i).staged.Some?
    ensures exists x: SegmentId :: NamesSegment(Held(run[u], i).staged.value, x)
                                   && x in run[u].live && run[u].live[x] == Held(run[u], i).data
  {
    RunInv(run, actor, u);
    BaseInv(run, actor, u);
    var s := run[u];
    assert SlotBacked(s, i);
    if NotYetAdopted(s, i) {
      assert L.InFanOut(s.base) && Held(s, i) == s.base.pc.sample;
      assert Carries(s, s.writer, s.base.pc.sample);
    }
  }

  /** A descriptor on its way to the wire names a live segment with the sample's bytes. */
  lemma SentNamesLive(run: seq<State>, actor: seq<nat>, u: nat)
    requires Run(run, actor) && u < |run| && run[u].base.pc.Sending?
    requires WireMessage(run[u].base.pc.sample, run[u].base.pc.latched).hdr.viaShm
    ensures var sample := run[u].base.pc.sample;
            sample.staged.Some?
            && exists x: SegmentId :: NamesSegment(sample.staged.value, x)
                                      && x in run[u].live && run[u].live[x] == sample.data
  {
    RunInv(run, actor, u);
    BaseInv(run, actor, u);
    assert run[u].base.pc.latched && L.InFanOut(run[u].base) && run[u].phase.Settled?;
  }

  /** Every segment in /dev/shm has exactly one owner: a caller, a slot, or an evicted
      handle; and every owner's segment exists. */
  lemma OneOwner(run: seq<State>, actor: seq<nat>, u: nat, x: SegmentId)
    requires Run(run, actor) && u < |run|
    ensures x in run[u].live <==> exists h :: Owns(run[u], h, x)
    ensures forall h, g :: Owns(run[u], h, x) && Owns(run[u], g, x) ==> h == g
  {
    RunInv(run, actor, u);
    assert x in run[u].live <==> Owned(run[u], x);
  }

  /** When all is quiet nothing has leaked: exactly the slots' segments are left. */
  lemma QuietHasNoLeak(run: seq<State>, actor: seq<nat>, u: nat, x: SegmentId)
    requires Run(run, actor) && u < |run| && run[u].staged == map[] && run[u].evicted == map[]
    ensures x in run[u].live <==> exists i :: 0 <= i < |run[u].owners| && run[u].owners[i] == Some(x)
  {
    OneOwner(run, actor, u, x);
    if x in run[u].live {
      var h :| Owns(run[u], h, x);
      assert run[u].owners[h.i] == Some(x);
    } else {
      forall i | 0 <= i < |run[u].owners|
        ensures run[u].owners[i] != Some(x)
      {
        assert !Owns(run[u], InSlot(i), x);
      }
    }
  }

  lemma {:induction false} BornGrows(run: seq<State>, actor: seq<nat>, a: nat, b: nat)
    requires Run(run, actor) && a <= b < |run|
    ensures forall x | x in run[a].born :: x in run[b].born && run[b].born[x] == run[a].born[x]
    decreases b
  {
    if a < b {
      BornGrows(run, actor, a, b - 1);
      assert Linked(run, actor, b);
      BornLasts(run[b - 1], run[b], actor[b]);
    }
  }

  /** A datagram sent by descriptor is a logged sample's. */
  lemma SentIsLogged(run: seq<State>, actor: seq<nat>, u: nat, j: nat)
    requires Run(run, actor) && u < |run| && j < |run[u].base.socket| && run[u].base.socket[j].hdr.viaShm
    ensures exists k: nat :: IsDescriptorOf(run[u].base.log, run[u].base.socket[j], k)
  {
    RunInv(run, actor, u);
    assert SentByDescriptor(run[u].base.log, run[u].base.socket[j]);
  }

  // ----- Resolving a descriptor -----

  /** Some stable slot holds sample k. */
  ghost predicate InRing(s: State, k: nat) {
    exists i: nat :: Stable(s, i) && s.base.slots[i].seqWord / 2 == k + 1
  }

  /** The segment a descriptor names never holds anything but its sample. */
  lemma FetchedIsSample(run: seq<State>, actor: seq<nat>, start: nat, now: nat, m: Message, k: nat)
    requires Run(run, actor) && start <= now < |run| && IsDescriptorOf(run[start].base.log, m, k)
    ensures |m.payload| == DESCRIPTOR_BYTES
    ensures var x := m.payload[OWNER_ID_OFFSET];
            x >= 0 && x in run[now].live ==>
              && run[now].live[x] == run[start].base.log[k].data
              && Message(m.hdr.(viaShm := false, payloadSize := |run[now].live[x]|), run[now].live[x])
                 == InlineMessage(run[start].base.log[k])
  {
    RunInv(run, actor, start);
    RunInv(run, actor, now);
    BaseInv(run, actor, start);
    BornGrows(run, actor, start, now);
    assert Described(run[start], run[start].base.log[k]);
  }

  lemma StillInRing(run: seq<State>, actor: seq<nat>, start: nat, now: nat, m: Message, k: nat)
    requires Run(run, actor) && start <= now < |run| && IsDescriptorOf(run[start].base.log, m, k)
    requires InRing(run[now], k)
    ensures |m.payload| == DESCRIPTOR_BYTES && m.payload[OWNER_ID_OFFSET] >= 0
    ensures m.payload[OWNER_ID_OFFSET] in run[now].live
  {
    LogGrows(run, actor, start, now);
    var i: nat :| Stable(run[now], i) && run[now].base.slots[i].seqWord / 2 == k + 1;
    assert Held(run[now], i) == run[start].base.log[k];
    StableNamesLive(run, actor, now, i);
  }

  lemma LogGrows(run: seq<State>, actor: seq<nat>, a: nat, b: nat)
    requires Run(run, actor) && a <= b < |run|
    ensures run[a].base.log <= run[b].base.log
  {
    BaseRun(run, actor);
    L.RunGrows(Bases(run), a, b);
  }

  /** A sample that is in the ring has been since it was committed. */
  lemma InRingSince(run: seq<State>, actor: seq<nat>, a: nat, b: nat, k: nat)
    requires Run(run, actor) && a <= b < |run| && k < |run[a].base.log| && InRing(run[b], k)
    ensures InRing(run[a], k)
  {
    BaseRun(run, actor);
    var i: nat :| Stable(run[b], i) && run[b].base.slots[i].seqWord / 2 == k + 1;
    L.HeldSince(Bases(run), a, b, i, k + 1);
    assert Stable(run[a], i);
  }

  /** shm_resolve_incoming on a latched descriptor.  `mappable`: mapping a segment that
      exists succeeds.  Whatever is returned is the sample as published, and while the ring
      still holds the record the resolve does not miss. */
  method ResolveIncoming(run: seq<State>, actor: seq<nat>, m: Message, mappable: bool, start: nat)
    returns (r: Option<Message>, now: nat)
    requires Run(run, actor) && start < |run|
    ensures start <= now < |run|
    ensures !m.hdr.viaShm ==> r == Some(m) && now == start
    ensures forall k: nat | r.Some? && IsDescriptorOf(run[start].base.log, m, k) :: r.value == InlineMessage(run[start].base.log[k])
    ensures forall k: nat | mappable && IsDescriptorOf(run[start].base.log, m, k) && InRing(run[now], k) :: r.Some?
  {
    if !m.hdr.viaShm {
      return Some(m), start;
    }
    now := Later(start, |run|);
    var desc := m.payload;
    forall k: nat | IsDescriptorOf(run[start].base.log, m, k)
      ensures |desc| == DESCRIPTOR_BYTES
    {
      FetchedIsSample(run, actor, start, now, m, k);
    }
    if |desc| != DESCRIPTOR_BYTES {
      return None, now;
    }
    var x := desc[OWNER_ID_OFFSET];
    forall k: nat | IsDescriptorOf(run[start].base.log, m, k) && InRing(run[now], k)
      ensures x >= 0 && x in run[now].live
    {
      StillInRing(run, actor, start, now, m, k);
    }
    if x < 0 || x !in run[now].live || !mappable {
      return None, now;
    }
    var bytes := run[now].live[x];
    forall k: nat | IsDescriptorOf(run[start].base.log, m, k)
      ensures Message(m.hdr.(viaShm := false, payloadSize := |bytes|), bytes) == InlineMessage(run[start].base.log[k])
    {
      FetchedIsSample(run, actor, start, now, m, k);
    }
    r := Some(Message(m.hdr.(viaShm := false, payloadSize := |bytes|), bytes));
  }
}
