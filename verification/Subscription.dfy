/** rmw_create_subscription's history pull and the drain of live datagrams.

    `world` is the history of the shared world with its durable segments and `run` the same
    history without them.  Every load happens at some time no earlier than the one before. */
module Subscription {
  import opened Wire
  import opened Schedule
  import opened LatchProtocol
  import opened Sorting
  import opened LatchedPull
  import opened LatchedJoin
  import D = DurableProtocol

  /** UdsSubscription, joined to one latched publisher.  `now` is the time of its latest
      read of the shared world and `consumed` how many datagrams it has received. */
  class UdsSubscription {
    const world: seq<D.State>
    const actor: seq<nat>
    const run: seq<State>
    const queueDepth: nat
    const ignoreLocal: bool
    const contextId: Cells
    var now: nat
    var consumed: nat
    var messageQueue: seq<Message>
    var replayedWatermarks: map<Cells, int>
    // Everything ever queued, where its live part came from, and how the pull went.
    ghost var stream: seq<Message>
    ghost var src: seq<nat>
    ghost var join: Join

    ghost predicate Shared() {
      D.Run(world, actor) && run == D.Bases(world) && Run(run)
    }

    ghost predicate Valid()
      reads this
    {
      && Shared() && now < |run| && consumed <= |run[now].socket|
      && NewestPart(messageQueue, stream)
      && |messageQueue| <= queueDepth
      && if Muted() then stream == [] && replayedWatermarks == map[]
         else
           && Joined(run, join) && join.depth == queueDepth && join.finish <= now
           && Streamed(join, run[now].log, run[now].socket[..consumed], src, stream)
           && replayedWatermarks == (if join.watermark.Some? then map[run[0].gid := join.watermark.value] else map[])
    }

    /** A message that needs no segment, or the descriptor of a sample still in the ring at t. */
    ghost predicate Resolvable(t: nat, m: Message)
      requires t < |run| == |world|
    {
      m.hdr.viaShm ==> exists k: nat :: IsDescriptorOf(run[t].log, m, k) && D.InRing(world[t], k)
    }

    /** What becomes of datagram m, resolved at time t: a duplicate leaves the stream alone, and
        so does every datagram of a muted publisher.  Any other is appended if it is inline, or if
        the segment of a sample still in the ring could be mapped; a descriptor may be left out
        otherwise. */
    ghost predicate Outcome(m: Message, t: nat, mappable: bool, before: seq<Message>, after: seq<Message>)
      requires t < |run| == |world|
      reads this`join
    {
      if Muted() || Duplicate(join.watermark, m) then after == before
      else
        && (after == before || (|after| == |before| + 1 && before <= after))
        && (after == before ==> m.hdr.viaShm && !(mappable && Resolvable(t, m)))
    }

    /** The queue holds what it held and what the stream gained, up to the depth. */
    ghost predicate QueueGrew(queued: nat, streamed: nat)
      reads this
    {
      |stream| >= streamed && |messageQueue| == Min(queueDepth, queued + |stream| - streamed)
    }

    /** ignore_local_publications with a publisher of this very context. */
    predicate Muted()
      requires |run| > 0
    {
      ignoreLocal && SameContext(run[0].gid, contextId)
    }

    /** What rmw_create_subscription does once its registration has bumped the generation. */
    constructor (world: seq<D.State>, actor: seq<nat>, registered: nat,
                 queueDepth: nat, ignoreLocal: bool, contextId: Cells, mappable: bool)
      requires D.Run(world, actor) && registered < |world| && world[registered].base.joinPhase.Bumped?
      ensures Valid() && this.world == world && consumed == 0 && now >= registered
      ensures this.queueDepth == queueDepth && this.ignoreLocal == ignoreLocal && this.contextId == contextId
      ensures !Muted() ==> join.start == registered && messageQueue == stream && |stream| == join.taken
      ensures !Muted() && mappable && join.taken < |join.records| ==> !Resolvable(now, join.records[join.taken])
    {
      this.world, this.actor, this.run, this.queueDepth := world, actor, D.Bases(world), queueDepth;
      this.ignoreLocal, this.contextId := ignoreLocal, contextId;
      now, consumed := registered, 0;
      messageQueue, replayedWatermarks, stream, src := [], map[], [], [];
      new;
      D.BaseRun(world, actor);
      if ignoreLocal && SameContext(run[0].gid, contextId) {
        return;
      }
      PullHistory(mappable);
    }

    /** The replay block: pull, trim, resolve in order, queue, and set the watermark. */
    method PullHistory(mappable: bool)
      requires Shared() && now < |run| && run[now].joinPhase.Bumped? && !Muted()
      requires messageQueue == stream == [] && src == [] && replayedWatermarks == map[] && consumed == 0
      modifies this
      ensures Valid() && consumed == 0 && now >= old(now)
      ensures join.start == old(now) && messageQueue == stream && |stream| == join.taken
      ensures mappable && join.taken < |join.records| ==> !Resolvable(now, join.records[join.taken])
    {
      ghost var start := now;
      ghost var pulled, overlapped, instant;
      var records, maxSeq, taken;
      pulled, records, maxSeq, overlapped, instant := PullRecords();
      ghost var finish := now;
      taken, maxSeq := QueuePulled(records, maxSeq, finish, mappable);
      PulledIsStreamed(Join(start, instant, finish, queueDepth, overlapped, pulled, records, taken,
                            Watermark(records, taken)), run[now].log, stream);
      Remember(Join(start, instant, finish, queueDepth, overlapped, pulled, records, taken, Watermark(records, taken)),
               records, maxSeq);
    }

    /** The watermark of a publisher something was pulled from. */
    method Remember(ghost j: Join, records: seq<Message>, maxSeq: int)
      requires Shared() && j.finish <= now < |run| && !Muted()
      requires replayedWatermarks == map[] && consumed == 0 && src == []
      requires messageQueue == stream && |stream| <= queueDepth == j.depth && |stream| == j.taken
      requires Joined(run, j) && Streamed(j, run[now].log, [], [], stream)
      requires records == j.records && (records != [] ==> j.watermark == Some(maxSeq))
      modifies this`replayedWatermarks, this`join
      ensures Valid() && join == j
    {
      if records != [] {
        replayedWatermarks := replayedWatermarks[run[0].gid := maxSeq];
      }
      join := j;
      assert run[now].socket[..0] == [];
    }

    /** The pull and, when it was overlapped, the trim. */
    method PullRecords()
      returns (ghost pulled: seq<Message>, records: seq<Message>, maxSeq: int, ghost overlapped: bool, ghost instant: nat)
      requires Shared() && now < |run|
      modifies this`now
      ensures old(now) <= now < |run|
      ensures PullResult(run, old(now), instant, now, queueDepth, pulled, LastSequence(pulled), overlapped)
      ensures if overlapped then ContiguousPrefix(pulled, records) else records == pulled
      ensures maxSeq == LastSequence(records) && |records| <= queueDepth
      ensures forall m | m in records :: FromLog(run[now].log, m)
    {
      var isOverlapped;
      ghost var found;
      records, maxSeq, isOverlapped, found, instant, now := TlRingPull(run, now, queueDepth);
      pulled, overlapped := records, isOverlapped;
      if isOverlapped {
        records := TrimToContiguous(records);
        maxSeq := LastSequence(records);
      }
    }

    /** Resolve and queue in order; an unresolvable record ends it and lowers the watermark. */
    method QueuePulled(records: seq<Message>, top: int, ghost finish: nat, mappable: bool) returns (taken: nat, maxSeq: int)
      requires Shared() && finish <= now < |run|
      requires messageQueue == stream == [] && |records| <= queueDepth && top == LastSequence(records)
      requires forall m | m in records :: FromLog(run[finish].log, m)
      modifies this`messageQueue, this`stream, this`now
      ensures old(now) <= now < |run|
      ensures messageQueue == stream && AllRestored(run[now].log, records, taken, stream)
      ensures taken < |records| ==> records[taken].hdr.viaShm && !(mappable && Resolvable(now, records[taken]))
      ensures records != [] ==> Watermark(records, taken) == Some(maxSeq)
    {
      taken, maxSeq := 0, top;
      while taken < |records|
        invariant old(now) <= now < |run| && maxSeq == top
        invariant messageQueue == stream && AllRestored(run[now].log, records, taken, stream)
      {
        ghost var before, log := stream, run[now].log;
        LoggedDescriptor(run, finish, now, records[taken]);
        var msg := Resolve(records[taken], mappable);
        if msg.None? {
          maxSeq := records[taken].hdr.sequenceNumber - 1;
          RestoredLasts(log, run[now].log, records, taken, stream);
          return;
        }
        RestoredMore(log, run[now].log, records, taken, stream, msg.value);
        Push(msg.value);
        taken := taken + 1;
      }
    }

    /** shm_resolve_incoming on a message that is inline or names a logged sample. */
    method Resolve(m: Message, mappable: bool) returns (r: Option<Message>)
      requires Shared() && now < |run| && (m.hdr.viaShm ==> exists k: nat :: IsDescriptorOf(run[now].log, m, k))
      modifies this`now
      ensures old(now) <= now < |run| && run[old(now)].log <= run[now].log
      ensures r.None? ==> m.hdr.viaShm && !(mappable && Resolvable(now, m))
      ensures r.Some? ==> Restores(run[now].log, m, r.value)
    {
      ghost var k: nat :| m.hdr.viaShm ==> IsDescriptorOf(run[now].log, m, k);
      ghost var start := now;
      r, now := D.ResolveIncoming(world, actor, m, mappable, now);
      RunGrows(run, start, now);
      if m.hdr.viaShm {
        assert IsDescriptorOf(run[now].log, m, k);
        OneDescriptor(run, now, m, k);
      }
    }

    /** push_back, then drop from the front while over the depth. */
    method Push(m: Message)
      requires NewestPart(messageQueue, stream)
      requires |messageQueue| <= queueDepth
      modifies this`messageQueue, this`stream
      ensures stream == old(stream) + [m]
      ensures NewestPart(messageQueue, stream)
      ensures |messageQueue| == Min(queueDepth, old(|messageQueue|) + 1)
    {
      messageQueue, stream := messageQueue + [m], stream + [m];
      while |messageQueue| > queueDepth
        invariant stream == old(stream) + [m]
        invariant NewestPart(messageQueue, stream)
        invariant Min(queueDepth, old(|messageQueue|) + 1) <= |messageQueue| <= old(|messageQueue|) + 1
      {
        messageQueue := messageQueue[1..];
      }
    }

    /** drain_subscription: receive until the socket is empty.  What is neither a duplicate nor
        muted and can still be resolved at the end has been queued. */
    method DrainSubscription(mappable: bool)
      requires Valid()
      modifies this
      ensures Valid() && now >= old(now) && consumed == |run[now].socket|
      ensures join == old(join) && old(stream) <= stream && QueueGrew(old(|messageQueue|), old(|stream|))
      ensures old(consumed) <= consumed && AllTaken(mappable, old(consumed))
    {
      var more := true;
      while more
        invariant Valid() && now >= old(now) && join == old(join) && old(stream) <= stream
        invariant QueueGrew(old(|messageQueue|), old(|stream|))
        invariant old(consumed) <= consumed && AllTaken(mappable, old(consumed))
        invariant !more ==> consumed == |run[now].socket|
        decreases |run[|run| - 1].socket| - consumed, more
      {
        more := ReceiveIfAny(mappable, old(consumed));
        ConsumedBound();
      }
    }

    /** Unless the publisher is muted or segments could not be mapped, every datagram from `first`
        on that was received, is no duplicate and is resolvable now has been queued. */
    ghost predicate AllTaken(mappable: bool, first: nat)
      requires now < |run| == |world| && consumed <= |run[now].socket|
      reads this
    {
      mappable && !Muted() ==> TakenAmong(join.watermark, now, first, consumed, src)
    }

    /** Of the datagrams from `first` on and before `end`, those that are no duplicates and are
        resolvable at time t are among `taken`. */
    ghost predicate TakenAmong(watermark: Option<int>, t: nat, first: nat, end: nat, taken: seq<nat>)
      requires t < |run| == |world| && end <= |run[t].socket|
    {
      forall c | first <= c < end && !Duplicate(watermark, run[t].socket[c]) && Resolvable(t, run[t].socket[c]) :: c in taken
    }

    /** One receive: an empty socket, or a datagram. */
    method ReceiveIfAny(mappable: bool, ghost first: nat) returns (any: bool)
      requires Valid() && first <= consumed && AllTaken(mappable, first)
      modifies this`now, this`consumed, this`messageQueue, this`stream, this`src
      ensures Valid() && now >= old(now) && old(stream) <= stream && QueueGrew(old(|messageQueue|), old(|stream|))
      ensures if any then consumed == old(consumed) + 1 else consumed == old(consumed) == |run[now].socket|
      ensures AllTaken(mappable, first)
    {
      var next := Later(now, |run|);
      ghost var before := now;
      WaitUntil(next);
      if mappable && !Muted() { TakenLasts(join.watermark, before, first, consumed, src); }
      if consumed == |run[now].socket| {
        return false;
      }
      ReceiveOne(mappable, first);
      any := true;
    }

    /** Receive, with the account of what was taken. */
    method ReceiveOne(mappable: bool, ghost first: nat)
      requires Valid() && consumed < |run[now].socket| && first <= consumed && AllTaken(mappable, first)
      modifies this`now, this`consumed, this`messageQueue, this`stream, this`src
      ensures Valid() && now >= old(now) && old(stream) <= stream && QueueGrew(old(|messageQueue|), old(|stream|))
      ensures consumed == old(consumed) + 1 && AllTaken(mappable, first)
    {
      ghost var before, c, taken, streamed := now, consumed, src, stream;
      Receive(mappable);
      TakenMore(mappable, before, first, c, taken, streamed);
    }

    /** What is resolvable later was resolvable before. */
    lemma TakenLasts(watermark: Option<int>, before: nat, first: nat, end: nat, taken: seq<nat>)
      requires Shared() && before <= now < |run| && end <= |run[before].socket| && end <= |run[now].socket|
      requires TakenAmong(watermark, before, first, end, taken)
      ensures TakenAmong(watermark, now, first, end, taken)
    {
      RunGrows(run, before, now);
      forall c | first <= c < end && !Duplicate(watermark, run[now].socket[c]) && Resolvable(now, run[now].socket[c])
        ensures c in taken
      {
        if run[now].socket[c].hdr.viaShm { ResolvableBefore(world, actor, run, before, now, c); }
      }
    }

    lemma TakenMore(mappable: bool, before: nat, first: nat, c: nat, taken: seq<nat>, streamed: seq<Message>)
      requires Shared() && before <= now < |run| && c < |run[before].socket| && consumed == c + 1 <= |run[now].socket|
      requires mappable && !Muted() ==> TakenAmong(join.watermark, before, first, c, taken)
      requires Outcome(run[before].socket[c], now, mappable, streamed, stream)
      requires src == if stream == streamed then taken else taken + [c]
      ensures AllTaken(mappable, first)
    {
      if mappable && !Muted() {
        TakenLasts(join.watermark, before, first, c, taken);
        SocketGrew(run, before, now, c);
        TakenNext(now, first, c, taken, streamed, stream, src);
      }
    }

    lemma TakenNext(t: nat, first: nat, c: nat, taken: seq<nat>, before: seq<Message>, after: seq<Message>, now: seq<nat>)
      requires t < |run| == |world| && c < |run[t].socket| && !Muted() && TakenAmong(join.watermark, t, first, c, taken)
      requires Outcome(run[t].socket[c], t, true, before, after)
      requires now == if after == before then taken else taken + [c]
      ensures TakenAmong(join.watermark, t, first, c + 1, now)
    {
      if after != before { assert now[|taken|] == c; }
    }

    /** Only what is in the socket when the run ends can be received. */
    lemma ConsumedBound()
      requires Valid()
      ensures consumed <= |run[|run| - 1].socket|
    {
      RunGrows(run, now, |run| - 1);
    }

    method WaitUntil(next: nat)
      requires Valid() && now <= next < |run|
      modifies this`now
      ensures Valid() && now == next
    {
      RunGrows(run, now, next);
      assert run[next].socket[..consumed] == run[now].socket[..consumed];
      if !Muted() { StreamLasts(join, run[now].log, run[next].log, run[now].socket[..consumed], src, stream); }
      now := next;
    }

    /** is_replayed_duplicate, on a datagram of the joined publisher. */
    predicate IsReplayedDuplicate(m: Message)
      reads this
    {
      m.hdr.gid in replayedWatermarks && m.hdr.sequenceNumber <= replayedWatermarks[m.hdr.gid]
    }

    /** One datagram: a duplicate, unresolvable, ignored, or queued as it was published. */
    method Receive(mappable: bool)
      requires Valid() && consumed < |run[now].socket|
      modifies this`now, this`consumed, this`messageQueue, this`stream, this`src
      ensures Valid() && now >= old(now) && consumed == old(consumed) + 1
      ensures QueueGrew(old(|messageQueue|), old(|stream|))
      ensures Outcome(run[old(now)].socket[old(consumed)], now, mappable, old(stream), stream)
      ensures src == if stream == old(stream) then old(src) else old(src) + [old(consumed)]
    {
      var m := run[now].socket[consumed];
      OriginOf(run, now, consumed);
      if IsReplayedDuplicate(m) {
        DropNext(m);
        return;
      }
      ResolveAndQueue(m, mappable);
    }

    method ResolveAndQueue(m: Message, mappable: bool)
      requires Valid() && consumed < |run[now].socket| && m == run[now].socket[consumed]
      requires m.hdr.gid == run[0].gid && !IsReplayedDuplicate(m)
      modifies this`now, this`consumed, this`messageQueue, this`stream, this`src
      ensures Valid() && now >= old(now) && consumed == old(consumed) + 1
      ensures QueueGrew(old(|messageQueue|), old(|stream|))
      ensures Outcome(m, now, mappable, old(stream), stream)
      ensures src == if stream == old(stream) then old(src) else old(src) + [old(consumed)]
    {
      var msg := ResolveNext(m, mappable);
      QueueOrDrop(m, msg, mappable);
    }

    /** What resolved is queued, unless its publisher is muted. */
    method QueueOrDrop(m: Message, msg: Option<Message>, ghost mappable: bool)
      requires Valid() && consumed < |run[now].socket| && m == run[now].socket[consumed]
      requires m.hdr.gid == run[0].gid && !IsReplayedDuplicate(m)
      requires msg.None? ==> m.hdr.viaShm && !(mappable && Resolvable(now, m))
      requires msg.Some? ==> Restores(run[now].log, m, msg.value)
      modifies this`consumed, this`messageQueue, this`stream, this`src
      ensures Valid() && consumed == old(consumed) + 1
      ensures QueueGrew(old(|messageQueue|), old(|stream|))
      ensures Outcome(m, now, mappable, old(stream), stream)
      ensures src == if stream == old(stream) then old(src) else old(src) + [old(consumed)]
    {
      if msg.None? || (ignoreLocal && SameContext(m.hdr.gid, contextId)) {
        DropNext(m);
        return;
      }
      QueueResolved(m, msg.value, mappable);
    }

    /** Resolve the next datagram; time passes. */
    method ResolveNext(m: Message, mappable: bool) returns (r: Option<Message>)
      requires Valid() && consumed < |run[now].socket| && m == run[now].socket[consumed]
      modifies this`now
      ensures Valid() && now >= old(now) && consumed < |run[now].socket| && m == run[now].socket[consumed]
      ensures r.None? ==> m.hdr.viaShm && !(mappable && Resolvable(now, m))
      ensures r.Some? ==> Restores(run[now].log, m, r.value)
    {
      ghost var before := now;
      if m.hdr.viaShm { D.SentIsLogged(world, actor, now, consumed); }
      r := Resolve(m, mappable);
      RunGrows(run, before, now);
      assert run[now].socket[..consumed] == run[before].socket[..consumed];
      if !Muted() { StreamLasts(join, run[before].log, run[now].log, run[now].socket[..consumed], src, stream); }
    }

    /** Leave the next datagram out. */
    method DropNext(m: Message)
      requires Valid() && consumed < |run[now].socket| && m == run[now].socket[consumed]
      requires Muted() || m.hdr.viaShm || Duplicate(join.watermark, m)
      modifies this`consumed
      ensures Valid() && consumed == old(consumed) + 1
    {
      ghost var sent := run[now].socket[..consumed];
      assert run[now].socket[..consumed + 1] == sent + [m];
      if !Muted() { StreamLess(join, run[now].log, sent, src, stream, m); }
      consumed := consumed + 1;
    }

    /** Queue what the next datagram resolved to. */
    method QueueResolved(m: Message, r: Message, ghost mappable: bool)
      requires Valid() && !Muted() && consumed < |run[now].socket| && m == run[now].socket[consumed]
      requires Restores(run[now].log, m, r) && !Duplicate(join.watermark, m)
      modifies this`consumed, this`messageQueue, this`stream, this`src
      ensures Valid() && consumed == old(consumed) + 1 && stream == old(stream) + [r]
      ensures src == old(src) + [old(consumed)] && QueueGrew(old(|messageQueue|), old(|stream|))
      ensures Outcome(m, now, mappable, old(stream), stream)
    {
      ghost var sent := run[now].socket[..consumed];
      assert run[now].socket[..consumed + 1] == sent + [m];
      StreamMore(join, run[now].log, sent, src, stream, m, r);
      consumed := consumed + 1;
      Push(r);
      src := src + [|sent|];
    }

    /** rmw_take: drain, then hand out the oldest queued message. */
    method Take(mappable: bool) returns (m: Option<Message>)
      requires Valid()
      modifies this
      ensures Valid() && old(stream) <= stream && join == old(join)
      ensures now >= old(now) && consumed == |run[now].socket|
      ensures old(consumed) <= consumed && AllTaken(mappable, old(consumed))
      ensures var queued := Min(queueDepth, old(|messageQueue|) + |stream| - old(|stream|));
              && (m.Some? <==> queued > 0) && |messageQueue| == (if m.Some? then queued - 1 else 0)
              && (m.Some? ==> queued <= |stream| && m.value == stream[|stream| - queued])
    {
      DrainSubscription(mappable);
      if messageQueue == [] {
        return None;
      }
      m := Some(messageQueue[0]);
      messageQueue := messageQueue[1..];
    }
  }

  lemma SocketGrew(run: seq<State>, a: nat, b: nat, c: nat)
    requires Run(run) && a <= b < |run| && c < |run[a].socket|
    ensures c < |run[b].socket| && run[b].socket[c] == run[a].socket[c]
  {
    RunGrows(run, a, b);
  }

  /** A log holds the sample of a descriptor once. */
  lemma OneDescriptor(run: seq<State>, t: nat, m: Message, k: nat)
    requires Run(run) && t < |run| && IsDescriptorOf(run[t].log, m, k)
    ensures forall k': nat | IsDescriptorOf(run[t].log, m, k') :: k' == k
  {
    RunInv(run, t);
    forall k': nat | IsDescriptorOf(run[t].log, m, k')
      ensures k' == k
    {
      assert Seqno(run[t].log[k']) == Seqno(run[t].log[k]);
    }
  }

  /** What is resolvable now was resolvable as soon as it was in the socket. */
  lemma ResolvableBefore(world: seq<D.State>, actor: seq<nat>, run: seq<State>, a: nat, b: nat, c: nat)
    requires D.Run(world, actor) && run == D.Bases(world) && Run(run) && a <= b < |run| && c < |run[a].socket|
    requires run[a].socket[c].hdr.viaShm
    requires exists k: nat :: IsDescriptorOf(run[b].log, run[a].socket[c], k) && D.InRing(world[b], k)
    ensures exists k: nat :: IsDescriptorOf(run[a].log, run[a].socket[c], k) && D.InRing(world[a], k)
  {
    var m := run[a].socket[c];
    var k: nat :| IsDescriptorOf(run[b].log, m, k) && D.InRing(world[b], k);
    D.SentIsLogged(world, actor, a, c);
    var k0: nat :| IsDescriptorOf(run[a].log, m, k0);
    RunGrows(run, a, b);
    OneDescriptor(run, b, m, k);
    assert IsDescriptorOf(run[b].log, m, k0);
    D.InRingSince(world, actor, a, b, k);
  }

  /** The queue is the newest part of the stream. */
  ghost predicate NewestPart(queue: seq<Message>, stream: seq<Message>) {
    |queue| <= |stream| && forall p | 0 <= p < |queue| :: queue[p] == stream[|stream| - |queue| + p]
  }

  /** A pulled record that is a descriptor names a sample of the log. */
  lemma LoggedDescriptor(run: seq<State>, finish: nat, now: nat, m: Message)
    requires Run(run) && finish <= now < |run| && FromLog(run[finish].log, m)
    ensures m.hdr.viaShm ==> exists k: nat :: IsDescriptorOf(run[now].log, m, k)
  {
    RunInv(run, finish);
    RunGrows(run, finish, now);
    var k: nat :| IsSample(run[finish].log, m, k);
    if m.hdr.viaShm { assert IsDescriptorOf(run[now].log, m, k - 1); }
  }

  lemma OriginOf(run: seq<State>, t: nat, c: nat)
    requires Run(run) && t < |run| && c < |run[t].socket|
    ensures run[t].socket[c].hdr.gid == run[0].gid && run[t].socket[c].hdr.kind == 0
  {
    RunInv(run, t);
    RunGrows(run, 0, t);
  }

  /** UdsGid::generate: the process, a counter, and the context that owns the entity. */
  function MakeGid(pid: Cells, counter: Cells, contextId: Cells): (gid: Cells)
    requires |pid| == 4 && |counter| == 4 && |contextId| == 8
    ensures |gid| == GID_BYTES
  {
    pid + counter + contextId
  }

  /** Whoever generated the GID, only entities of one's own context are in the same context. */
  lemma SameContextIff(pid: Cells, counter: Cells, owner: Cells, contextId: Cells)
    requires |pid| == 4 && |counter| == 4 && |owner| == 8
    ensures SameContext(MakeGid(pid, counter, owner), contextId) <==> owner == contextId
  {
    assert MakeGid(pid, counter, owner)[8..] == owner;
  }

  /** The trailing bytes of a GID name the context that created the entity. */
  predicate SameContext(gid: Cells, contextId: Cells) {
    |gid| == GID_BYTES && gid[8..] == contextId
  }
}
