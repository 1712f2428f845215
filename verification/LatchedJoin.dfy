/** What a late joiner's history pull and the live datagrams it then drains together deliver. */
module LatchedJoin {
  import opened Wire
  import opened LatchProtocol
  import opened Sorting
  import opened LatchedPull

  // ----- Resolving descriptors -----

  /** r is m with an inline payload left alone, and a descriptor of a logged sample replaced
      by that sample as it was published. */
  ghost predicate Restores(log: seq<Sample>, m: Message, r: Message) {
    if m.hdr.viaShm then exists k: nat :: IsDescriptorOf(log, m, k) && r == InlineMessage(log[k]) else r == m
  }

  lemma RestoresLasts(log: seq<Sample>, log': seq<Sample>, m: Message, r: Message)
    requires log <= log' && Restores(log, m, r)
    ensures Restores(log', m, r) && r.hdr.sequenceNumber == m.hdr.sequenceNumber
  {
    if m.hdr.viaShm {
      var k: nat :| IsDescriptorOf(log, m, k) && r == InlineMessage(log[k]);
      assert IsDescriptorOf(log', m, k);
    }
  }

  /** `stream` is the first `taken` records, restored. */
  ghost predicate AllRestored(log: seq<Sample>, records: seq<Message>, taken: nat, stream: seq<Message>) {
    taken == |stream| <= |records| && forall p | 0 <= p < taken :: Restores(log, records[p], stream[p])
  }

  lemma RestoredMore(log: seq<Sample>, log': seq<Sample>, records: seq<Message>, taken: nat, stream: seq<Message>, r: Message)
    requires AllRestored(log, records, taken, stream) && log <= log'
    requires taken < |records| && Restores(log', records[taken], r)
    ensures AllRestored(log', records, taken + 1, stream + [r])
  {
    forall p | 0 <= p < taken
      ensures Restores(log', records[p], stream[p])
    {
      RestoresLasts(log, log', records[p], stream[p]);
    }
  }

  lemma RestoredLasts(log: seq<Sample>, log': seq<Sample>, records: seq<Message>, taken: nat, stream: seq<Message>)
    requires AllRestored(log, records, taken, stream) && log <= log'
    ensures AllRestored(log', records, taken, stream)
  {
    forall p | 0 <= p < taken
      ensures Restores(log', records[p], stream[p])
    {
      RestoresLasts(log, log', records[p], stream[p]);
    }
  }

  // ----- The overlap trim -----

  /** r is the longest prefix of ms without a sequence gap. */
  ghost predicate ContiguousPrefix(ms: seq<Message>, r: seq<Message>) {
    && r <= ms && (ms != [] ==> r != [])
    && (forall i | 1 <= i < |r| :: r[i].hdr.sequenceNumber == r[i - 1].hdr.sequenceNumber + 1)
    && (r != [] && |r| < |ms| ==> ms[|r|].hdr.sequenceNumber != r[|r| - 1].hdr.sequenceNumber + 1)
  }

  method TrimToContiguous(ms: seq<Message>) returns (r: seq<Message>)
    ensures ContiguousPrefix(ms, r)
  {
    var keep := |ms|;
    var i := 1;
    while i < |ms|
      invariant |ms| > 0 ==> 1 <= i <= |ms|
      invariant keep == |ms|
      invariant forall j | 1 <= j < i && j < |ms| :: ms[j].hdr.sequenceNumber == ms[j - 1].hdr.sequenceNumber + 1
    {
      if ms[i].hdr.sequenceNumber != ms[i - 1].hdr.sequenceNumber + 1 {
        keep := i;
        break;
      }
      i := i + 1;
    }
    r := ms[..keep];
  }

  // ----- What a completed join and its drains amount to -----

  /** `pulled` is tl_ring_pull's result, `records` what the overlap trim left of it, and
      `taken` how many of those were resolved and queued. */
  datatype Join = Join(
    start: nat, instant: nat, finish: nat, depth: nat, overlapped: bool,
    pulled: seq<Message>, records: seq<Message>, taken: nat, watermark: Option<int>)

  ghost predicate Joined(run: seq<State>, j: Join) {
    && PullResult(run, j.start, j.instant, j.finish, j.depth, j.pulled, LastSequence(j.pulled), j.overlapped)
    && run[j.start].joinPhase.Bumped?
    && (if j.overlapped then ContiguousPrefix(j.pulled, j.records) else j.records == j.pulled)
    && j.taken <= |j.records|
    && (j.taken < |j.records| ==> j.records[j.taken].hdr.viaShm)
    && j.watermark == Watermark(j.records, j.taken)
  }

  /** The watermark claims what was queued, and stops below an unresolvable record. */
  function Watermark(records: seq<Message>, taken: nat): Option<int> {
    if records == [] then None
    else if taken < |records| then Some(records[taken].hdr.sequenceNumber - 1)
    else Some(LastSequence(records))
  }

  /** is_replayed_duplicate */
  predicate Duplicate(watermark: Option<int>, m: Message) {
    watermark.Some? && m.hdr.sequenceNumber <= watermark.value
  }

  /** `stream` is everything queued: the restored pull, then the datagrams sent[src[0]],
      sent[src[1]], ...  Only a duplicate or an unresolvable descriptor is left out. */
  ghost predicate Streamed(j: Join, log: seq<Sample>, sent: seq<Message>, src: seq<nat>, stream: seq<Message>) {
    && |stream| == j.taken + |src| && j.taken <= |j.records|
    && (forall p | 0 <= p < j.taken :: Restores(log, j.records[p], stream[p]))
    && (forall p | 0 <= p < |src| ::
          src[p] < |sent| && !Duplicate(j.watermark, sent[src[p]]) && Restores(log, sent[src[p]], stream[j.taken + p]))
    && (forall p, q | 0 <= p < q < |src| :: src[p] < src[q])
    && (forall c | 0 <= c < |sent| && !sent[c].hdr.viaShm && !Duplicate(j.watermark, sent[c]) :: c in src)
  }

  lemma PulledIsStreamed(j: Join, log: seq<Sample>, stream: seq<Message>)
    requires AllRestored(log, j.records, j.taken, stream)
    ensures Streamed(j, log, [], [], stream)
  {}

  lemma StreamLasts(j: Join, log: seq<Sample>, log': seq<Sample>, sent: seq<Message>, src: seq<nat>, stream: seq<Message>)
    requires Streamed(j, log, sent, src, stream) && log <= log'
    ensures Streamed(j, log', sent, src, stream)
  {
    forall p | 0 <= p < j.taken
      ensures Restores(log', j.records[p], stream[p])
    {
      RestoresLasts(log, log', j.records[p], stream[p]);
    }
    forall p | 0 <= p < |src|
      ensures Restores(log', sent[src[p]], stream[j.taken + p])
    {
      RestoresLasts(log, log', sent[src[p]], stream[j.taken + p]);
    }
  }

  lemma StreamMore(j: Join, log: seq<Sample>, sent: seq<Message>, src: seq<nat>, stream: seq<Message>, m: Message, r: Message)
    requires Streamed(j, log, sent, src, stream) && !Duplicate(j.watermark, m) && Restores(log, m, r)
    ensures Streamed(j, log, sent + [m], src + [|sent|], stream + [r])
  {
    var src' := src + [|sent|];
    forall c | 0 <= c < |sent + [m]| && !(sent + [m])[c].hdr.viaShm && !Duplicate(j.watermark, (sent + [m])[c])
      ensures c in src'
    {
      if c == |sent| { assert src'[|src|] == c; }
    }
  }

  lemma StreamLess(j: Join, log: seq<Sample>, sent: seq<Message>, src: seq<nat>, stream: seq<Message>, m: Message)
    requires Streamed(j, log, sent, src, stream) && (m.hdr.viaShm || Duplicate(j.watermark, m))
    ensures Streamed(j, log, sent + [m], src, stream)
  {}

  /** Restoring keeps sequence numbers. */
  lemma StreamSequence(j: Join, log: seq<Sample>, sent: seq<Message>, src: seq<nat>, stream: seq<Message>)
    requires Streamed(j, log, sent, src, stream)
    ensures forall p | 0 <= p < j.taken :: stream[p].hdr.sequenceNumber == j.records[p].hdr.sequenceNumber
    ensures forall p | 0 <= p < |src| :: stream[j.taken + p].hdr.sequenceNumber == sent[src[p]].hdr.sequenceNumber
  {
    forall p | 0 <= p < j.taken
      ensures stream[p].hdr.sequenceNumber == j.records[p].hdr.sequenceNumber
    {
      RestoresLasts(log, log, j.records[p], stream[p]);
    }
    forall p | 0 <= p < |src|
      ensures stream[j.taken + p].hdr.sequenceNumber == sent[src[p]].hdr.sequenceNumber
    {
      RestoresLasts(log, log, sent[src[p]], stream[j.taken + p]);
    }
  }

  /** AT MOST ONCE, IN ORDER.  Whatever overlapped, failed to latch, or failed to resolve,
      the sequence numbers one publisher contributes to the queue strictly increase. */
  lemma AtMostOnceInOrder(run: seq<State>, j: Join, t: nat, consumed: nat, src: seq<nat>, stream: seq<Message>)
    requires Run(run) && Joined(run, j) && t < |run| && consumed <= |run[t].socket|
    requires Streamed(j, run[t].log, run[t].socket[..consumed], src, stream)
    ensures Ascending(stream)
  {
    RunInv(run, t);
    var sent := run[t].socket[..consumed];
    StreamSequence(j, run[t].log, sent, src, stream);
    forall p, q | 0 <= p < q < |stream|
      ensures stream[p].hdr.sequenceNumber < stream[q].hdr.sequenceNumber
    {
      if q < j.taken {
        RecordsAscend(j);
      } else if p < j.taken {
        RecordBelowWatermark(j, p);
        assert !Duplicate(j.watermark, sent[src[q - j.taken]]);
      } else {
        assert src[p - j.taken] < src[q - j.taken];
      }
    }
  }

  lemma RecordsAscend(j: Join)
    requires Ascending(j.pulled) && (if j.overlapped then ContiguousPrefix(j.pulled, j.records) else j.records == j.pulled)
    ensures Ascending(j.records)
  {}

  lemma RecordBelowWatermark(j: Join, p: nat)
    requires Ascending(j.pulled) && (if j.overlapped then ContiguousPrefix(j.pulled, j.records) else j.records == j.pulled)
    requires p < j.taken <= |j.records| && j.watermark == Watermark(j.records, j.taken)
    ensures j.watermark.Some? && j.records[p].hdr.sequenceNumber <= j.watermark.value
  {
    RecordsAscend(j);
  }

  // ----- Lossless joins -----

  /** m is in the stream once, and nothing else carries its sequence number. */
  ghost predicate DeliveredOnce(stream: seq<Message>, sample: Sample) {
    exists p :: 0 <= p < |stream| && stream[p] == InlineMessage(sample)
                && forall q | 0 <= q < |stream| && stream[q].hdr.sequenceNumber == Seqno(sample) :: q == p
  }

  lemma InStreamOnce(stream: seq<Message>, sample: Sample)
    requires Ascending(stream) && InlineMessage(sample) in stream
    ensures DeliveredOnce(stream, sample)
  {
    var p :| 0 <= p < |stream| && stream[p] == InlineMessage(sample);
    assert forall q | 0 <= q < |stream| && stream[q].hdr.sequenceNumber == Seqno(sample) :: q == p;
  }

  /** Sample k is retained by the ring at state s and within the joiner's depth: neither
      overwritten, nor being overwritten, nor older than what the joiner asked for. */
  predicate Owed(s: State, depth: nat, k: nat)
    requires |s.slots| > 0
  {
    |s.log| < k + Min(RingWindow(s), depth)
  }

  /** A sample pulled and resolved reaches the queue as it was published. */
  lemma TakenIsDelivered(j: Join, log: seq<Sample>, sent: seq<Message>, src: seq<nat>, stream: seq<Message>, k: nat)
    requires Streamed(j, log, sent, src, stream) && j.taken <= |j.records|
    requires LogAscends(log) && k < |log| && SampleOk(log[k]) && SlotMessage(log[k]) in j.records[..j.taken]
    ensures InlineMessage(log[k]) in stream
  {
    var p :| 0 <= p < j.taken && j.records[p] == SlotMessage(log[k]);
    assert Restores(log, j.records[p], stream[p]);
    if log[k].staged.Some? {
      var i: nat :| IsDescriptorOf(log, j.records[p], i) && stream[p] == InlineMessage(log[i]);
      assert Seqno(log[i]) == Seqno(log[k]);
    }
  }

  /** The datagram of this sample was received and resolved. */
  ghost predicate Received(sent: seq<Message>, src: seq<nat>, sample: Sample) {
    exists p :: 0 <= p < |src| && src[p] < |sent| && sent[src[p]] == WireMessage(sample, true)
  }

  lemma ReceivedIsDelivered(j: Join, log: seq<Sample>, sent: seq<Message>, src: seq<nat>, stream: seq<Message>, k: nat)
    requires Streamed(j, log, sent, src, stream) && LogAscends(log) && k < |log| && SampleOk(log[k])
    requires Received(sent, src, log[k])
    ensures InlineMessage(log[k]) in stream
  {
    var p :| 0 <= p < |src| && src[p] < |sent| && sent[src[p]] == WireMessage(log[k], true);
    assert Restores(log, sent[src[p]], stream[j.taken + p]);
    if sent[src[p]].hdr.viaShm {
      var i: nat :| IsDescriptorOf(log, sent[src[p]], i) && stream[j.taken + p] == InlineMessage(log[i]);
      assert Seqno(log[i]) == Seqno(log[k]);
    }
  }

  /** The store-buffering argument: a sample committed after some moment of the join is
      sent to the joiner, and above the watermark it is queued. */
  lemma LateIsDelivered(run: seq<State>, j: Join, t: nat, e: nat, k: nat, src: seq<nat>, stream: seq<Message>)
    requires Run(run) && Joined(run, j) && j.start <= t <= j.finish <= e < |run|
    requires Streamed(j, run[e].log, run[e].socket, src, stream)
    requires |run[t].log| < k <= |run[e].log| && Finished(run[e], k)
    requires SentInline(run[e].log[k - 1]) || Received(run[e].socket, src, run[e].log[k - 1])
    requires j.watermark.Some? ==> j.watermark.value < Seqno(run[e].log[k - 1])
    ensures InlineMessage(run[e].log[k - 1]) in stream
  {
    RunInv(run, e);
    if !Received(run[e].socket, src, run[e].log[k - 1]) {
      LateIsReceived(run, j, t, e, k, src, stream);
    }
    ReceivedIsDelivered(j, run[e].log, run[e].socket, src, stream, k - 1);
  }

  lemma LateIsReceived(run: seq<State>, j: Join, t: nat, e: nat, k: nat, src: seq<nat>, stream: seq<Message>)
    requires Run(run) && Joined(run, j) && j.start <= t <= j.finish <= e < |run|
    requires Streamed(j, run[e].log, run[e].socket, src, stream)
    requires |run[t].log| < k <= |run[e].log| && Finished(run[e], k) && SentInline(run[e].log[k - 1])
    requires j.watermark.Some? ==> j.watermark.value < Seqno(run[e].log[k - 1])
    ensures Received(run[e].socket, src, run[e].log[k - 1])
  {
    RunInv(run, e);
    RunInv(run, j.start);
    RunGrows(run, j.start, t);
    RunGrows(run, j.start, e);
    var sent := run[e].socket;
    var m := WireMessage(run[e].log[k - 1], true);
    assert m in sent;
    var c :| 0 <= c < |sent| && sent[c] == m;
    assert c in src;
    var p :| 0 <= p < |src| && src[p] == c;
  }

  /** Sample k was there to be pulled, or its datagram needs no segment, or resolved. */
  ghost predicate Arrives(run: seq<State>, j: Join, e: nat, k: nat, src: seq<nat>)
    requires j.instant < |run| && e < |run| && 1 <= k <= |run[e].log|
  {
    || k <= |run[j.instant].log| || SentInline(run[e].log[k - 1])
    || Received(run[e].socket, src, run[e].log[k - 1])
  }

  /** EXACTLY ONCE.  When the pull ends without overlap, there was an instant of the scan
      such that every sample committed by then and still owed, whether embedded or in a
      segment of its own, and every sample committed later whose fan-out carries its bytes,
      reaches the joiner exactly once, once its publish returned and the joiner drained its
      socket.  A later sample sent by descriptor does so if its datagram resolves.  The
      losses are those of the ring itself: what it had overwritten by then the watermark
      claims, so its datagram is dropped too. */
  lemma UnoverlappedJoinIsLossless(run: seq<State>, j: Join, e: nat, src: seq<nat>, stream: seq<Message>)
    requires Run(run) && Joined(run, j) && j.finish <= e < |run|
    requires Streamed(j, run[e].log, run[e].socket, src, stream)
    requires !j.overlapped && j.taken == |j.records|
    ensures forall k | 1 <= k <= |run[e].log| && Finished(run[e], k) && Owed(run[j.instant], j.depth, k)
                       && Arrives(run, j, e, k, src) :: DeliveredOnce(stream, run[e].log[k - 1])
  {
    assert run[e].socket[..|run[e].socket|] == run[e].socket;
    AtMostOnceInOrder(run, j, e, |run[e].socket|, src, stream);
    RunInv(run, e);
    forall k | 1 <= k <= |run[e].log| && Finished(run[e], k) && Owed(run[j.instant], j.depth, k)
               && Arrives(run, j, e, k, src)
      ensures DeliveredOnce(stream, run[e].log[k - 1])
    {
      OwedIsDelivered(run, j, e, k, src, stream);
      InStreamOnce(stream, run[e].log[k - 1]);
    }
  }

  lemma OwedIsDelivered(run: seq<State>, j: Join, e: nat, k: nat, src: seq<nat>, stream: seq<Message>)
    requires Run(run) && Joined(run, j) && j.finish <= e < |run|
    requires Streamed(j, run[e].log, run[e].socket, src, stream)
    requires !j.overlapped && j.taken == |j.records|
    requires 1 <= k <= |run[e].log| && Finished(run[e], k) && Owed(run[j.instant], j.depth, k)
    requires Arrives(run, j, e, k, src)
    ensures InlineMessage(run[e].log[k - 1]) in stream
  {
    if k <= |run[j.instant].log| {
      OwedIsPulled(run, j, e, k);
      RunInv(run, e);
      assert j.records[..j.taken] == j.records;
      TakenIsDelivered(j, run[e].log, run[e].socket, src, stream, k - 1);
    } else {
      LateIsAboveWatermark(run, j, e, k);
      LateIsDelivered(run, j, j.instant, e, k, src, stream);
    }
  }

  lemma OwedIsPulled(run: seq<State>, j: Join, e: nat, k: nat)
    requires Run(run) && Joined(run, j) && j.finish <= e < |run| && !j.overlapped
    requires 1 <= k <= |run[j.instant].log| && Owed(run[j.instant], j.depth, k)
    ensures k <= |run[e].log| && SlotMessage(run[e].log[k - 1]) in j.records
  {
    var s := run[j.instant];
    RunGrows(run, j.instant, e);
    var r := Replay(s, j.depth);
    ReplayAt(s, j.depth, k - 1 - (|s.log| - |r|));
    assert run[e].log[k - 1] == s.log[k - 1];
  }

  lemma LateIsAboveWatermark(run: seq<State>, j: Join, e: nat, k: nat)
    requires Run(run) && Joined(run, j) && j.finish <= e < |run| && !j.overlapped && j.taken == |j.records|
    requires |run[j.instant].log| < k <= |run[e].log|
    ensures j.watermark.Some? ==> j.watermark.value < Seqno(run[e].log[k - 1])
  {
    var s := run[j.instant];
    RunInv(run, e);
    RunGrows(run, j.instant, e);
    var r := Replay(s, j.depth);
    if r != [] {
      ReplayAt(s, j.depth, |r| - 1);
      assert run[e].log[|s.log| - 1] == s.log[|s.log| - 1];
    }
  }

  // ----- Every join: exactly which samples reach the joiner -----

  /** A record of the pull that restores to a sample is what the latch wrote for it. */
  lemma RestoredRecordIs(log: seq<Sample>, m: Message, k: nat)
    requires LogAscends(log) && k < |log| && FromLog(log, m) && Restores(log, m, InlineMessage(log[k]))
    ensures m == SlotMessage(log[k])
  {
    var i :| IsSample(log, m, i);
    RestoresLasts(log, log, m, InlineMessage(log[k]));
    assert Seqno(log[i - 1]) == Seqno(log[k]);
  }

  /** A datagram sent inline is queued exactly when the watermark does not claim it. */
  lemma ReceivedIff(j: Join, log: seq<Sample>, sent: seq<Message>, src: seq<nat>, stream: seq<Message>, sample: Sample)
    requires Streamed(j, log, sent, src, stream) && SentInline(sample) && !sample.hdr.viaShm
    ensures Received(sent, src, sample)
       <==> WireMessage(sample, true) in sent && !Duplicate(j.watermark, WireMessage(sample, true))
  {
    var m := WireMessage(sample, true);
    if m in sent && !Duplicate(j.watermark, m) {
      var c :| 0 <= c < |sent| && sent[c] == m;
      assert c in src;
      var p :| 0 <= p < |src| && src[p] == c;
    }
  }

  /** EVERY JOIN, whether the ring wrapped, the pull was overlapped, cut by depth or stopped
      at an unresolvable record, and whether or not latches failed.  A committed sample is
      delivered, then exactly once, if and only if its record was kept and resolved or its
      datagram was received; and a datagram that carries its bytes is received if and only
      if it was sent and lies above the watermark. */
  lemma DeliveredIff(run: seq<State>, j: Join, e: nat, k: nat, src: seq<nat>, stream: seq<Message>)
    requires Run(run) && Joined(run, j) && j.finish <= e < |run| && k < |run[e].log|
    requires Streamed(j, run[e].log, run[e].socket, src, stream)
    ensures DeliveredOnce(stream, run[e].log[k])
       <==> SlotMessage(run[e].log[k]) in j.records[..j.taken] || Received(run[e].socket, src, run[e].log[k])
    ensures var m := WireMessage(run[e].log[k], true);
            SentInline(run[e].log[k]) ==>
              (Received(run[e].socket, src, run[e].log[k]) <==> m in run[e].socket && !Duplicate(j.watermark, m))
  {
    var log, sent, sample := run[e].log, run[e].socket, run[e].log[k];
    RunInv(run, e);
    assert sent[..|sent|] == sent;
    AtMostOnceInOrder(run, j, e, |sent|, src, stream);
    if SentInline(sample) { ReceivedIff(j, log, sent, src, stream, sample); }
    if SlotMessage(sample) in j.records[..j.taken] {
      TakenIsDelivered(j, log, sent, src, stream, k);
      InStreamOnce(stream, sample);
    } else if Received(sent, src, sample) {
      ReceivedIsDelivered(j, log, sent, src, stream, k);
      InStreamOnce(stream, sample);
    } else if InlineMessage(sample) in stream {
      DeliveredCameFrom(run, j, e, k, src, stream);
    }
  }

  /** Nothing else puts a sample into the stream. */
  lemma DeliveredCameFrom(run: seq<State>, j: Join, e: nat, k: nat, src: seq<nat>, stream: seq<Message>)
    requires Run(run) && Joined(run, j) && j.finish <= e < |run| && k < |run[e].log|
    requires Streamed(j, run[e].log, run[e].socket, src, stream) && InlineMessage(run[e].log[k]) in stream
    ensures SlotMessage(run[e].log[k]) in j.records[..j.taken] || Received(run[e].socket, src, run[e].log[k])
  {
    var log, sent := run[e].log, run[e].socket;
    RunInv(run, e);
    var p :| 0 <= p < |stream| && stream[p] == InlineMessage(log[k]);
    if p < j.taken {
      RecordsFromLog(run, j, e, j.records[p]);
      RestoredRecordIs(log, j.records[p], k);
      assert j.records[..j.taken][p] == SlotMessage(log[k]);
    } else {
      var c := src[p - j.taken];
      RestoresLasts(log, log, sent[c], stream[p]);
      assert sent[c] == WireMessage(log[k], true);
    }
  }

  lemma RecordsFromLog(run: seq<State>, j: Join, e: nat, m: Message)
    requires Run(run) && Joined(run, j) && j.finish <= e < |run| && m in j.records
    ensures FromLog(run[e].log, m)
  {
    RunGrows(run, j.finish, e);
    assert m in j.pulled;
    var i :| IsSample(run[j.finish].log, m, i);
    assert IsSample(run[e].log, m, i);
  }

  // ----- The overlapped join: exactly when it is lossless -----

  ghost predicate EveryLatchSucceeded(s: State) {
    forall i | 0 <= i < |s.log| :: Seqno(s.log[i]) == i + 1
  }

  ghost predicate AllSentInline(s: State) {
    forall i | 0 <= i < |s.log| :: SentInline(s.log[i])
  }

  ghost predicate Lossless(s: State, stream: seq<Message>) {
    forall k | 1 <= k <= |s.log| && Finished(s, k) :: DeliveredOnce(stream, s.log[k - 1])
  }

  /** The setting of the overlap trim: no slot reused before the scan ended, nothing cut by
      depth, every latch successful and every pulled record resolved, no datagram by descriptor. */
  ghost predicate PlainJoin(run: seq<State>, j: Join, e: nat, src: seq<nat>, stream: seq<Message>) {
    && Run(run) && Joined(run, j) && j.finish <= e < |run|
    && Streamed(j, run[e].log, run[e].socket, src, stream) && j.taken == |j.records|
    && Unwrapped(run[j.finish]) && |run[j.finish].log| <= j.depth
    && EveryLatchSucceeded(run[e]) && AllSentInline(run[e])
  }

  /** The pull found the first sample, or found nothing it could claim. */
  predicate StartsAtFirst(j: Join) {
    j.records == [] || j.records[0].hdr.sequenceNumber == 1
  }

  /** With every latch successful, sequence numbers name log positions. */
  lemma SequenceIsIndex(run: seq<State>, j: Join, e: nat, m: Message)
    requires Run(run) && Joined(run, j) && j.finish <= e < |run| && EveryLatchSucceeded(run[e])
    requires m in j.pulled
    ensures 1 <= m.hdr.sequenceNumber <= |run[j.finish].log| <= |run[e].log|
    ensures m == SlotMessage(run[e].log[m.hdr.sequenceNumber - 1])
  {
    RunGrows(run, j.finish, e);
    assert FromLog(run[j.finish].log, m);
    var k :| IsSample(run[j.finish].log, m, k);
    assert run[e].log[k - 1] == run[j.finish].log[k - 1];
  }

  /** Records starting at sample 1 are samples 1, 2, ... without a gap. */
  lemma RecordsAreFirst(run: seq<State>, src: seq<nat>, stream: seq<Message>, j: Join, e: nat, p: nat)
    requires PlainJoin(run, j, e, src, stream) && j.records != [] && StartsAtFirst(j) && p < |j.records|
    ensures j.records[p].hdr.sequenceNumber == p + 1
  {
    if p > 0 {
      RecordsAreFirst(run, src, stream, j, e, p - 1);
      if !j.overlapped {
        ConsecutiveReplay(run, j, e, p);
      }
    }
  }

  lemma ConsecutiveReplay(run: seq<State>, j: Join, e: nat, p: nat)
    requires Run(run) && Joined(run, j) && j.finish <= e < |run| && EveryLatchSucceeded(run[e])
    requires !j.overlapped && 1 <= p < |j.records|
    ensures j.records[p].hdr.sequenceNumber == j.records[p - 1].hdr.sequenceNumber + 1
  {
    var s := run[j.instant];
    RunGrows(run, j.instant, e);
    ReplayAt(s, j.depth, p);
    ReplayAt(s, j.depth, p - 1);
    var k := |s.log| - |j.records| + p + 1;
    assert s.log[k - 1] == run[e].log[k - 1] && s.log[k - 2] == run[e].log[k - 2];
  }

  /** The first sample beyond the kept prefix had not been committed when the scan passed it. */
  lemma NextWasMissed(run: seq<State>, j: Join, e: nat, src: seq<nat>, stream: seq<Message>)
    requires PlainJoin(run, j, e, src, stream) && StartsAtFirst(j)
    requires |j.records| < |run[j.finish].log|
    ensures MissedAt(run, j.start, j.finish, |j.records| + 1)
  {
    var w := |j.records|;
    RunGrows(run, j.finish, e);
    var m := SlotMessage(run[j.finish].log[w]);
    assert run[e].log[w] == run[j.finish].log[w];
    if m in j.pulled {
      var p :| 0 <= p < |j.pulled| && j.pulled[p] == m;
      RecordsAreFirst(run, src, stream, j, e, w - 1);
    }
  }

  lemma StartsAtFirstDelivers(run: seq<State>, j: Join, e: nat, k: nat, src: seq<nat>, stream: seq<Message>)
    requires PlainJoin(run, j, e, src, stream) && StartsAtFirst(j)
    requires 1 <= k <= |run[e].log| && Finished(run[e], k)
    ensures InlineMessage(run[e].log[k - 1]) in stream
  {
    if k <= |j.records| {
      PulledFirstDelivers(run, j, e, k, src, stream);
    } else {
      BeyondPullDelivers(run, j, e, k, src, stream);
    }
  }

  lemma PulledFirstDelivers(run: seq<State>, j: Join, e: nat, k: nat, src: seq<nat>, stream: seq<Message>)
    requires PlainJoin(run, j, e, src, stream) && StartsAtFirst(j) && 1 <= k <= |j.records| && k <= |run[e].log|
    ensures InlineMessage(run[e].log[k - 1]) in stream
  {
    RunInv(run, e);
    RecordIsSample(run, j, e, k, src, stream);
    assert j.records[..j.taken][k - 1] == SlotMessage(run[e].log[k - 1]);
    TakenIsDelivered(j, run[e].log, run[e].socket, src, stream, k - 1);
  }

  lemma RecordIsSample(run: seq<State>, j: Join, e: nat, k: nat, src: seq<nat>, stream: seq<Message>)
    requires PlainJoin(run, j, e, src, stream) && StartsAtFirst(j) && 1 <= k <= |j.records| && k <= |run[e].log|
    ensures j.records[k - 1] == SlotMessage(run[e].log[k - 1])
  {
    RecordsAreFirst(run, src, stream, j, e, k - 1);
    assert j.records[k - 1] in j.pulled;
    SequenceIsIndex(run, j, e, j.records[k - 1]);
  }

  lemma BeyondPullDelivers(run: seq<State>, j: Join, e: nat, k: nat, src: seq<nat>, stream: seq<Message>)
    requires PlainJoin(run, j, e, src, stream) && StartsAtFirst(j)
    requires |j.records| < k <= |run[e].log| && Finished(run[e], k)
    ensures InlineMessage(run[e].log[k - 1]) in stream
  {
    var w := |j.records|;
    RunInv(run, e);
    if w > 0 { RecordsAreFirst(run, src, stream, j, e, w - 1); }
    var t := j.finish;
    if w < |run[j.finish].log| {
      NextWasMissed(run, j, e, src, stream);
      t :| j.start <= t <= j.finish && UncommittedAt(run, t, w + 1);
    }
    LateIsDelivered(run, j, t, e, k, src, stream);
  }

  /** EXACTLY WHEN AN OVERLAPPED JOIN IS LOSSLESS.  The contiguous-prefix trim guards against
      gaps between pulled records but not before the first one.  The join delivers every
      sample exactly once if and only if the pull found nothing or found sample 1: a scan
      that saw slot 0 empty and then picked up later samples silently loses the earlier ones. */
  lemma JoinIsLosslessIff(run: seq<State>, j: Join, e: nat, src: seq<nat>, stream: seq<Message>)
    requires PlainJoin(run, j, e, src, stream)
    ensures Lossless(run[e], stream) <==> StartsAtFirst(j)
  {
    assert run[e].socket[..|run[e].socket|] == run[e].socket;
    AtMostOnceInOrder(run, j, e, |run[e].socket|, src, stream);
    if StartsAtFirst(j) {
      forall k | 1 <= k <= |run[e].log| && Finished(run[e], k)
        ensures DeliveredOnce(stream, run[e].log[k - 1])
      {
        StartsAtFirstDelivers(run, j, e, k, src, stream);
        InStreamOnce(stream, run[e].log[k - 1]);
      }
    } else {
      FirstIsLost(run, j, e, src, stream);
    }
  }

  lemma FirstIsLost(run: seq<State>, j: Join, e: nat, src: seq<nat>, stream: seq<Message>)
    requires PlainJoin(run, j, e, src, stream) && !StartsAtFirst(j)
    ensures |run[e].log| > 1 && Finished(run[e], 1) && !DeliveredOnce(stream, run[e].log[0])
  {
    var q := j.records[0].hdr.sequenceNumber;
    assert j.records[0] in j.pulled;
    SequenceIsIndex(run, j, e, j.records[0]);
    RecordsAscend(j);
    assert q > 1 && LastSequence(j.records) >= q;
    StreamSequence(j, run[e].log, run[e].socket, src, stream);
    forall p | 0 <= p < |stream|
      ensures stream[p].hdr.sequenceNumber != 1
    {
      if p >= j.taken {
        assert !Duplicate(j.watermark, run[e].socket[src[p - j.taken]]);
      }
    }
  }

  /** A caller can tell beforehand: a sample committed before the scan makes the join lossless. */
  lemma EarlySampleMakesJoinLossless(run: seq<State>, j: Join, e: nat, src: seq<nat>, stream: seq<Message>)
    requires PlainJoin(run, j, e, src, stream) && |run[j.start].log| >= 1
    ensures Lossless(run[e], stream)
  {
    RunGrows(run, j.start, j.finish);
    RunGrows(run, j.finish, e);
    var m := SlotMessage(run[j.finish].log[0]);
    if MissedAt(run, j.start, j.finish, 1) {
      var t :| j.start <= t <= j.finish && UncommittedAt(run, t, 1);
      RunGrows(run, j.start, t);
    }
    assert m in j.pulled;
    var p :| 0 <= p < |j.pulled| && j.pulled[p] == m;
    SequenceIsIndex(run, j, e, j.pulled[0]);
    SequenceIsIndex(run, j, e, m);
    JoinIsLosslessIff(run, j, e, src, stream);
  }
}
