/** transient_local_publish as sequential code, and how the sequential ring relates to the
    steps of LatchProtocol. */
module LatchedPublisher {
  import Arith
  import opened Wire
  import opened LatchProtocol
  import opened LatchedPull
  import opened LatchedRing
  import opened RegistryQuery
  import opened Schedule
  import R = RegistryProtocol

  ghost predicate OneOwnerEach(segs: seq<Option<SegmentId>>) {
    forall i, k | 0 <= i < k < |segs| && segs[i].Some? && segs[k].Some? :: segs[i].value != segs[k].value
  }

  lemma OwnedAfterLatch(segs: seq<Option<SegmentId>>, t: nat, seg: Option<SegmentId>)
    requires t < |segs| && OneOwnerEach(segs) && (seg.Some? ==> seg.value !in Owned(segs))
    ensures OneOwnerEach(segs[t := seg])
    ensures Owned(segs[t := seg])
         == Owned(segs) - (if segs[t].Some? then {segs[t].value} else {}) + (if seg.Some? then {seg.value} else {})
  {
    var segs' := segs[t := seg];
    forall i | 0 <= i < |segs| && segs[i].Some?
      ensures segs[i].value in Owned(segs)
    {}
    forall x
      ensures x in Owned(segs') <==> (x in Owned(segs) && segs[t] != Some(x)) || seg == Some(x)
    {
      if x in Owned(segs) && segs[t] != Some(x) {
        var i :| 0 <= i < |segs| && segs[i] == Some(x);
        assert segs'[i] == Some(x);
      }
      if seg == Some(x) { assert segs'[t] == Some(x); }
    }
  }

  /** Adopting the staged segment and destroying the evicted one keeps the books balanced. */
  lemma SegmentsBalance(live: set<SegmentId>, segs: seq<Option<SegmentId>>, t: nat, seg: Option<SegmentId>)
    requires t < |segs| && OneOwnerEach(segs) && Owned(segs) <= live && (seg.Some? ==> seg.value !in live)
    ensures var live' := live + Ids(seg) - Ids(segs[t]);
            Owned(segs[t := seg]) <= live' && OneOwnerEach(segs[t := seg])
            && live' - Owned(segs[t := seg]) == live - Owned(segs)
            && Ids(seg) <= Owned(segs[t := seg])
  {
    OwnedAfterLatch(segs, t, seg);
    assert segs[t].Some? ==> segs[t].value in Owned(segs);
  }

  function Ids(seg: Option<SegmentId>): set<SegmentId> {
    if seg.Some? then {seg.value} else {}
  }

  /** Samples of one publisher, in sequence order, numbered below `next`. */
  ghost predicate LogOf(gid: Cells, log: seq<Sample>, next: int) {
    LogAscends(log) && LogBelow(log, next) && forall k | 0 <= k < |log| :: log[k].hdr.gid == gid
  }

  lemma LogMore(gid: Cells, log: seq<Sample>, s: Sample)
    requires LogOf(gid, log, Seqno(s)) && s.hdr.gid == gid && Seqno(s) >= 1
    ensures LogOf(gid, log + [s], Seqno(s) + 1) && LogOf(gid, log, Seqno(s) + 1)
  {}

  /** What a publish does to the shared world, in the order that makes replay lossless. */
  datatype Action = Latch | LoadGeneration | FanOut | DestroyEvicted

  class LatchingPublisher {
    const gid: Cells
    const ring: TlRingWriter
    const shm: ShmNamespace
    const cache: SubscriberCache
    var sequenceNumber: int
    /** Every action so far. */
    ghost var actions: seq<Action>

    /** Every segment the ring owns exists, and each has one owner. */
    ghost predicate Valid()
      reads this, ring, ring.mem, shm
    {
      && |gid| == GID_BYTES && 1 <= sequenceNumber
      && ring.Valid() && shm.Valid()
      && Owned(ring.durableSegs) <= shm.live && OneOwnerEach(ring.durableSegs)
      && LogOf(gid, ring.log, sequenceNumber)
    }

    constructor (gid: Cells, topic: Cells, depth: nat, available: bool, shm: ShmNamespace)
      requires |gid| == GID_BYTES && shm.Valid()
      ensures Valid() && fresh(ring) && fresh(ring.mem) && fresh(cache) && this.shm == shm && this.gid == gid
      ensures ring.log == [] && sequenceNumber == 1 && cache.topic == topic && cache.cachedGeneration == 0
      ensures ring.mapped == available && (available && depth >= 1 ==> 1 <= ring.slots <= depth)
      ensures available && ring.slots < depth ==> (ring.slots + 1) * TL_SLOT_STRIDE > TL_RING_MAX_BYTES
    {
      this.gid, this.shm, sequenceNumber, actions := gid, shm, 1, [];
      ring := new TlRingWriter(depth, available);
      cache := new SubscriberCache(topic);
    }

    /** Stage, take a number, latch, load the generation, refresh the subscriber list, send to
        each path, and destroy the evicted segment.  `committed` is the outcome of
        posix_fallocate and `available` that of creating a durable segment, which an over-cap
        payload asks for; `registry` is the history of the shared registry, read from `start` on.

        No segment leaks and none dies early: the namespace changes by exactly what the
        ring gained and lost, and a descriptor on the wire names a segment the ring owns.
        Every path of a list at least as new as the generation loaded gets the message; in
        guarded runs the list is accurate, so these are the topic's subscribers, each once.
        The generation is loaded after the latch, and a segment outlives the sends. */
    method TransientLocalPublish(timestamp: int, data: Cells, committed: bool, available: bool,
                                 registry: seq<R.State>, actor: seq<nat>, start: nat)
      returns (wire: Message, latched: bool, sent: seq<(Cells, Message)>, ghost s: Sample, ghost loaded: nat, now: nat)
      requires Valid() && R.Run(registry, actor) && start < |registry|
      requires R.Guarded(registry, actor) ==> cache.Accurate(registry, actor)
      modifies this, ring, ring.mem, shm, cache
      ensures Valid() && ring.mem == old(ring.mem)
      ensures sequenceNumber == old(sequenceNumber) + 1
      ensures actions == old(actions) + [Latch, LoadGeneration, FanOut, DestroyEvicted]
      ensures SampleOk(s) && s.data == data && s.hdr == WireHeader(gid, old(sequenceNumber), timestamp, |data|, 0, false)
      ensures s.staged.Some? <==> |data| > TL_EMBED_CAP && available
      ensures ring.mapped == old(ring.mapped)
      ensures latched <==> ring.mapped && committed && (|data| <= TL_EMBED_CAP || available)
      ensures wire == WireMessage(s, latched)
      ensures ring.log == if latched then old(ring.log) + [s] else old(ring.log)
      ensures shm.live - Owned(ring.durableSegs) == old(shm.live) - Owned(old(ring.durableSegs))
      ensures wire.hdr.viaShm ==> exists seg :: NamesSegment(wire.payload, seg) && seg in Owned(ring.durableSegs)
      ensures start <= loaded <= now < |registry| && registry[loaded].generation <= cache.cachedGeneration
      ensures R.Guarded(registry, actor) ==> cache.Accurate(registry, actor)
      ensures |sent| == |cache.paths| && forall i | 0 <= i < |sent| :: sent[i] == (cache.paths[i], wire)
    {
      var evicted;
      wire, latched, s, evicted := StageAndLatch(timestamp, data, committed, available);
      sent, loaded, now := RefreshAndSend(wire, registry, actor, start);
      Release(evicted);
    }

    /** Stage, number, latch, and decide what goes on the wire; the evicted segment is still to
        be destroyed. */
    method StageAndLatch(timestamp: int, data: Cells, committed: bool, available: bool)
      returns (wire: Message, latched: bool, ghost s: Sample, evicted: Option<SegmentId>)
      requires Valid()
      modifies this, ring, ring.mem, shm
      ensures Valid() && ring.mem == old(ring.mem) && ring.mapped == old(ring.mapped)
      ensures sequenceNumber == old(sequenceNumber) + 1 && actions == old(actions) + [Latch]
      ensures SampleOk(s) && s.data == data && s.hdr == WireHeader(gid, old(sequenceNumber), timestamp, |data|, 0, false)
      ensures s.staged.Some? <==> |data| > TL_EMBED_CAP && available
      ensures latched <==> ring.mapped && committed && (|data| <= TL_EMBED_CAP || available)
      ensures wire == WireMessage(s, latched)
      ensures ring.log == if latched then old(ring.log) + [s] else old(ring.log)
      ensures Owned(ring.durableSegs) <= shm.live - Ids(evicted)
      ensures shm.live - Ids(evicted) - Owned(ring.durableSegs) == old(shm.live) - Owned(old(ring.durableSegs))
      ensures wire.hdr.viaShm ==> exists seg :: NamesSegment(wire.payload, seg) && seg in Owned(ring.durableSegs)
    {
      var staged, desc := StageIfLarge(data, available);
      var sample := Sample(WireHeader(gid, sequenceNumber, timestamp, |data|, 0, false), data,
                           if staged.Some? then Some(desc) else None);
      latched, evicted := LatchNumbered(sample, staged, committed);
      wire, s := WireMessage(sample, latched), sample;
      if wire.hdr.viaShm {
        assert NamesSegment(wire.payload, staged.value);
      }
    }

    /** A payload too large to embed is staged before the mutex is taken. */
    method StageIfLarge(data: Cells, available: bool) returns (staged: Option<SegmentId>, desc: Cells)
      requires shm.Valid()
      modifies shm
      ensures shm.Valid() && (staged.Some? <==> |data| > TL_EMBED_CAP && available)
      ensures shm.live == old(shm.live) + Ids(staged)
      ensures staged.Some? ==> staged.value !in old(shm.live) && NamesSegment(desc, staged.value)
    {
      staged, desc := None, [];
      if |data| > TL_EMBED_CAP {
        staged, desc := shm.StageDurable(available);
      }
    }

    /** The evicted segment goes out of scope after the mutex. */
    method Release(evicted: Option<SegmentId>)
      requires shm.Valid()
      modifies this`actions, shm`live
      ensures shm.Valid() && shm.live == old(shm.live) - Ids(evicted) && actions == old(actions) + [DestroyEvicted]
    {
      shm.Destroy(evicted);
      actions := actions + [DestroyEvicted];
    }

    /** The generation load, refresh_sub_paths, and the send loop. */
    method RefreshAndSend(wire: Message, registry: seq<R.State>, actor: seq<nat>, start: nat)
      returns (sent: seq<(Cells, Message)>, ghost loaded: nat, now: nat)
      requires R.Run(registry, actor) && start < |registry|
      requires R.Guarded(registry, actor) ==> cache.Accurate(registry, actor)
      modifies cache, this`actions
      ensures actions == old(actions) + [LoadGeneration, FanOut]
      ensures start <= loaded <= now < |registry| && registry[loaded].generation <= cache.cachedGeneration
      ensures R.Guarded(registry, actor) ==> cache.Accurate(registry, actor)
      ensures |sent| == |cache.paths| && forall i | 0 <= i < |sent| :: sent[i] == (cache.paths[i], wire)
    {
      var t := Later(start, |registry|);
      loaded, actions := t, actions + [LoadGeneration];
      var paths;
      paths, now := cache.RefreshSubPaths(registry, actor, t, registry[t].generation, t);
      sent := [];
      for k := 0 to |paths|
        invariant |sent| == k && forall i | 0 <= i < k :: sent[i] == (paths[i], wire)
      {
        sent := sent + [(paths[k], wire)];
      }
      actions := actions + [FanOut];
    }

    /** Number and latch; the evicted segment is still to be destroyed. */
    method LatchNumbered(s: Sample, staged: Option<SegmentId>, committed: bool)
      returns (latched: bool, evicted: Option<SegmentId>)
      requires |gid| == GID_BYTES && ring.Valid() && shm.Valid() && 1 <= sequenceNumber
      requires OneOwnerEach(ring.durableSegs) && LogOf(gid, ring.log, sequenceNumber)
      requires Ids(staged) <= shm.live && Owned(ring.durableSegs) <= shm.live - Ids(staged)
      requires SampleOk(s) && s.hdr.gid == gid && Seqno(s) == sequenceNumber && staged.Some? == s.staged.Some?
      requires staged.Some? ==> NamesSegment(s.staged.value, staged.value)
      modifies this, ring, ring.mem, shm`live
      ensures ring.Valid() && shm.Valid() && OneOwnerEach(ring.durableSegs)
      ensures ring.mem == old(ring.mem) && sequenceNumber == old(sequenceNumber) + 1
      ensures actions == old(actions) + [Latch]
      ensures LogOf(gid, ring.log, sequenceNumber)
      ensures ring.mapped == old(ring.mapped) && (latched <==> ring.mapped && Latchable(s) && committed)
      ensures ring.log == if latched then old(ring.log) + [s] else old(ring.log)
      ensures Owned(ring.durableSegs) <= shm.live - Ids(evicted)
      ensures shm.live - Ids(evicted) - Owned(ring.durableSegs) == old(shm.live) - Ids(staged) - Owned(old(ring.durableSegs))
      ensures latched ==> Ids(staged) <= Owned(ring.durableSegs)
    {
      ghost var segs, live := ring.durableSegs, shm.live - Ids(staged);
      ghost var t;
      latched, evicted, t := LatchOwned(s, staged, committed);
      if latched {
        SegmentsBalance(live, segs, t, staged);
      }
      LogMore(gid, ring.log[..|ring.log| - if latched then 1 else 0], s);
      sequenceNumber, actions := sequenceNumber + 1, actions + [Latch];
    }

    /** tl_ring_latch, as far as the ownership of segments and the log go. */
    method LatchOwned(s: Sample, staged: Option<SegmentId>, committed: bool)
      returns (latched: bool, evicted: Option<SegmentId>, ghost t: nat)
      requires ring.Valid() && shm.Valid() && SampleOk(s) && staged.Some? == s.staged.Some?
      requires staged.Some? ==> NamesSegment(s.staged.value, staged.value)
      modifies ring, ring.mem, shm`live
      ensures ring.Valid() && shm.Valid() && ring.mem == old(ring.mem) && ring.mapped == old(ring.mapped)
      ensures latched <==> ring.mapped && Latchable(s) && committed
      ensures latched ==> ring.log == old(ring.log) + [s] && shm.live == old(shm.live)
                          && t < |old(ring.durableSegs)| && evicted == old(ring.durableSegs)[t]
                          && ring.durableSegs == old(ring.durableSegs)[t := staged]
      ensures !latched ==> ring.log == old(ring.log) && shm.live == old(shm.live) - Ids(staged)
                           && evicted == None && ring.durableSegs == old(ring.durableSegs)
    {
      t := if ring.slots > 0 && ring.nextIndex > 0 then Arith.Residue(ring.nextIndex - 1, ring.slots) else 0;
      latched, evicted := ring.Latch(s, staged, committed, shm);
    }
  }

  // ----- The sequential ring and the step relation agree -----

  /** Partway through latching from state a: only the target slot differs, and only where
      the record goes. */
  predicate MidLatch(a: State, u: State)
    requires a.pc.Assigned? && |a.slots| > 0 && a.nextIndex > 0 && SampleOk(a.pc.sample)
  {
    && (u.pc.Assigned? || Writing(u)) && u.pc.sample == a.pc.sample
    && u.nextIndex == a.nextIndex && u.log == a.log && |u.slots| == |a.slots|
    && (forall i | 0 <= i < |a.slots| && i != Target(a) :: u.slots[i] == a.slots[i])
    && var cs, t := SlotCells(a.pc.sample), Target(a);
    && |u.slots[t].cells| == |a.slots[t].cells|
    && (forall x | |cs| <= x < |a.slots[t].cells| :: u.slots[t].cells[x] == a.slots[t].cells[x])
  }

  lemma {:induction false} RunMidLatch(run: seq<State>, a: nat, u: nat)
    requires Run(run) && a <= u < |run| && run[a].pc.Assigned?
    requires forall t | a <= t <= u :: run[t].pc.Assigned? || Writing(run[t])
    ensures Inv(run[a]) && MidLatch(run[a], run[u])
  {
    RunInv(run, a);
    if a < u {
      RunMidLatch(run, a, u - 1);
      assert Linked(run, u);
      RunInv(run, u - 1);
      MidLatchStep(run[a], run[u - 1], run[u]);
    }
  }

  lemma MidLatchStep(a: State, u: State, v: State)
    requires RingInv(a) && a.pc.Assigned? && MidLatch(a, u) && RingInv(u) && Next(u, v)
    requires v.pc.Assigned? || Writing(v)
    ensures MidLatch(a, v)
  {
    if WriterStep(u, v) {
      assert Target(u) == Target(a);
    } else {
      UnwrittenStep(u, v);
    }
  }

  /** A publish that latches, however its steps interleave with everybody else's, changes
      the slots exactly as the sequential tl_ring_latch does. */
  lemma StepsLatchInto(run: seq<State>, a: nat, b: nat)
    requires Run(run) && a < b < |run| && run[a].pc.Assigned?
    requires forall t | a <= t < b :: run[t].pc.Assigned? || Writing(run[t])
    requires run[b].pc.Fenced? && run[b].pc.latched
    ensures Inv(run[a]) && |SlotCells(run[a].pc.sample)| <= SLOT_CELLS
    ensures forall i | 0 <= i < |run[a].slots| :: |run[a].slots[i].cells| == SLOT_CELLS
    ensures run[b].slots == LatchInto(run[a].slots, run[a].nextIndex, run[a].pc.sample)
    ensures run[b].log == run[a].log + [run[a].pc.sample]
  {
    RunMidLatch(run, a, b - 1);
    RunInv(run, b - 1);
    assert Linked(run, b);
    CommitCompletesLatch(run[a], run[b - 1], run[b]);
  }

  lemma CommitCompletesLatch(s: State, u: State, v: State)
    requires Inv(s) && s.pc.Assigned? && MidLatch(s, u) && RingInv(u) && Next(u, v)
    requires v.pc.Fenced? && v.pc.latched
    ensures |SlotCells(s.pc.sample)| <= SLOT_CELLS
    ensures forall i | 0 <= i < |s.slots| :: |s.slots[i].cells| == SLOT_CELLS
    ensures v.slots == LatchInto(s.slots, s.nextIndex, s.pc.sample) && v.log == s.log + [s.pc.sample]
  {
    forall i | 0 <= i < |s.slots|
      ensures |s.slots[i].cells| == SLOT_CELLS
    {
      assert SlotInv(s, i);
    }
    assert Commit(u, v);
    assert SlotInv(u, Target(u));
    var t, cs := Target(s), SlotCells(s.pc.sample);
    assert u.slots[t].cells[..|cs|] == cs[..|cs|] == cs;
    assert u.slots[t].cells[|cs|..] == s.slots[t].cells[|cs|..];
    assert u.slots[t].cells == cs + s.slots[t].cells[|cs|..];
  }

  /** With no writer about, a pull never reports overlap and returns the newest samples the
      ring and the requested depth allow, oldest first. */
  lemma QuiescentPullIsBoundedList(run: seq<State>, start: nat, instant: nat, finish: nat, depth: nat,
                                   records: seq<Message>, maxSeq: int, overlapped: bool)
    requires Run(run) && PullResult(run, start, instant, finish, depth, records, maxSeq, overlapped)
    requires forall t | start <= t <= finish :: run[t].pc.Idle?
    ensures !overlapped
    ensures var s := run[start];
            records == Messages(s.log[|s.log| - Min(|s.log|, Min(|s.slots|, depth))..])
  {
    QuietSlots(run, start, instant);
    QuietSlots(run, start, finish);
  }

  lemma {:induction false} QuietSlots(run: seq<State>, start: nat, t: nat)
    requires Run(run) && start <= t < |run| && forall u | start <= u <= t :: run[u].pc.Idle?
    ensures run[t].slots == run[start].slots && run[t].log == run[start].log
  {
    if start < t {
      QuietSlots(run, start, t - 1);
      assert Linked(run, t);
    }
  }
}
