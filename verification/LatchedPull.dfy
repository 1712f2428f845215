/** tl_ring_pull: a late joiner's scan of a latched ring that a writer may be filling.

    `run` is the history of the shared world.  Every load happens at some time no
    earlier than the load before it; Later picks that time arbitrarily, so what is
    proved here holds for every interleaving of the scan with the writer. */
module LatchedPull {
  import opened Wire
  import opened Schedule
  import opened LatchProtocol
  import opened Sorting
  import Arith

  const MAX_SLOT_RETRIES := 16

  // ----- One slot -----

  ghost predicate CopiedAt(run: seq<State>, t: nat, i: nat, j: nat, cell: int) {
    t < |run| && i < |run[t].slots| && j < |run[t].slots[i].cells| && run[t].slots[i].cells[j] == cell
  }

  ghost predicate CopiedBetween(run: seq<State>, a: nat, b: nat, i: nat, j: nat, cell: int) {
    exists t :: a <= t <= b && CopiedAt(run, t, i, j, cell)
  }

  /** Each cell was read at some time in the window: possibly a torn copy. */
  ghost predicate CellsCopied(run: seq<State>, a: nat, b: nat, i: nat, cells: Cells) {
    forall j | 0 <= j < |cells| :: CopiedBetween(run, a, b, i, j, cells[j])
  }

  lemma CopyLasts(run: seq<State>, a: nat, b: nat, a': nat, b': nat, i: nat, cells: Cells)
    requires CellsCopied(run, a, b, i, cells) && a' <= a && b <= b'
    ensures CellsCopied(run, a', b', i, cells)
  {
    forall j | 0 <= j < |cells|
      ensures CopiedBetween(run, a', b', i, j, cells[j])
    {
      var t :| a <= t <= b && CopiedAt(run, t, i, j, cells[j]);
    }
  }

  /** The slot held the word `obs` at time t.  A record taken from it is the sample that
      word names; no record means the word was zero, odd, or already superseded. */
  ghost predicate ScannedAt(run: seq<State>, t: nat, end: nat, i: nat, obs: nat, rec: Option<Message>) {
    && t <= end < |run| && i < |run[t].slots| && i < |run[end].slots|
    && run[t].slots[i].seqWord == obs
    && match rec
       case Some(m) => obs > 0 && obs % 2 == 0 && obs / 2 <= |run[t].log| && m == SlotMessage(run[t].log[obs / 2 - 1])
       case None => obs == 0 || obs % 2 == 1 || run[end].slots[i].seqWord != obs
  }

  ghost predicate Scanned(run: seq<State>, start: nat, end: nat, i: nat, obs: nat, rec: Option<Message>) {
    exists t :: start <= t <= end && ScannedAt(run, t, end, i, obs, rec)
  }

  /** Between two sightings of the same stable word, the slot holds one and the same sample. */
  lemma StableBetween(run: seq<State>, a: nat, t: nat, b: nat, i: nat)
    requires Run(run) && a <= t <= b < |run| && i < |run[a].slots|
    requires |run[a].slots| == |run[b].slots| && run[a].slots[i].seqWord == run[b].slots[i].seqWord
    requires run[a].slots[i].seqWord > 0 && run[a].slots[i].seqWord % 2 == 0
    ensures |run[t].slots| == |run[a].slots|
    ensures var k := run[a].slots[i].seqWord / 2;
            && k <= |run[a].log| <= |run[b].log| && run[a].log[k - 1] == run[b].log[k - 1]
            && run[t].slots[i].seqWord == 2 * k
            && HoldsSample(run[t].slots[i], run[a].log[k - 1])
  {
    RunGrows(run, a, t);
    RunGrows(run, t, b);
    RunInv(run, a);
    RunInv(run, t);
    assert SlotInv(run[a], i) && SlotInv(run[t], i);
  }

  lemma CopyIsSample(run: seq<State>, a: nat, b: nat, i: nat, cells: Cells)
    requires Run(run) && a <= b < |run| && i < |run[a].slots| == |run[b].slots|
    requires run[a].slots[i].seqWord == run[b].slots[i].seqWord > 0 && run[a].slots[i].seqWord % 2 == 0
    requires run[a].slots[i].seqWord / 2 <= |run[a].log|
    requires SampleOk(run[a].log[run[a].slots[i].seqWord / 2 - 1])
    requires |cells| == |SlotCells(run[a].log[run[a].slots[i].seqWord / 2 - 1])|
    requires CellsCopied(run, a, b, i, cells)
    ensures cells == SlotCells(run[a].log[run[a].slots[i].seqWord / 2 - 1])
  {
    var cs := SlotCells(run[a].log[run[a].slots[i].seqWord / 2 - 1]);
    forall j | 0 <= j < |cells|
      ensures cells[j] == cs[j]
    {
      assert CopiedBetween(run, a, b, i, j, cells[j]);
      var t :| a <= t <= b && CopiedAt(run, t, i, j, cells[j]);
      StableBetween(run, a, t, b, i);
      assert run[t].slots[i].cells[..|cs|][j] == cs[j];
    }
  }

  /** Copy the first `count` cells of slot i, each cell at its own time. */
  method CopyCells(run: seq<State>, start: nat, i: nat, count: nat) returns (cells: Cells, now: nat)
    requires Run(run) && start < |run| && i < |run[start].slots| && count <= SLOT_CELLS
    ensures start <= now < |run| && |cells| == count
    ensures CellsCopied(run, start, now, i, cells)
  {
    cells, now := [], start;
    while |cells| < count
      invariant start <= now < |run| && |cells| <= count
      invariant CellsCopied(run, start, now, i, cells)
    {
      ghost var before := now;
      now := Later(now, |run|);
      RunGrows(run, start, now);
      RunInv(run, now);
      assert SlotInv(run[now], i);
      CopyLasts(run, start, before, start, now, i, cells);
      assert CopiedAt(run, now, i, |cells|, run[now].slots[i].cells[|cells|]);
      cells := cells + [run[now].slots[i].cells[|cells|]];
    }
  }

  /** The bounded seqlock read of one slot: the last seq observed, and its record if any. */
  method ReadSlot(run: seq<State>, start: nat, i: nat) returns (obs: nat, rec: Option<Message>, now: nat)
    requires Run(run) && start < |run| && i < |run[start].slots|
    ensures start <= now < |run|
    ensures Scanned(run, start, now, i, obs, rec)
  {
    now := start;
    obs, rec := 1, None;
    var retry := 0;
    ghost var seen := start;
    while retry < MAX_SLOT_RETRIES
      invariant start <= seen <= now < |run| && rec == None && retry <= MAX_SLOT_RETRIES
      invariant retry > 0 ==> ScannedAt(run, seen, now, i, obs, None)
    {
      now := Later(now, |run|);
      RunGrows(run, start, now);
      obs, seen := run[now].slots[i].seqWord, now;
      if obs == 0 {
        assert ScannedAt(run, seen, now, i, obs, None);
        return;
      }
      if obs % 2 == 1 {
        retry := retry + 1;
        continue;
      }
      now := Later(now, |run|);
      RunGrows(run, seen, now);
      var len := run[now].slots[i].len;
      if len > TL_EMBED_CAP {
        LongLengthIsTorn(run, seen, now, i);
        retry := retry + 1;
        continue;
      }
      ghost var lenAt := now;
      var cells;
      cells, now := CopyCells(run, now, i, WIRE_HEADER_BYTES + len);
      ghost var copied := now;
      now := Later(now, |run|);
      RunGrows(run, seen, now);
      if run[now].slots[i].seqWord != obs {
        retry := retry + 1;
        continue;
      }
      StableBetween(run, seen, lenAt, now, i);
      CopyLasts(run, lenAt, copied, seen, now, i, cells);
      CopyIsSample(run, seen, now, i, cells);
      SlotRoundTrip(run[seen].log[obs / 2 - 1]);
      rec := Some(Message(DecodeHeader(cells[..WIRE_HEADER_BYTES]), cells[WIRE_HEADER_BYTES..]));
      assert ScannedAt(run, seen, now, i, obs, rec);
      return;
    }
  }

  /** A committed record's length never exceeds the cap, so a longer one is a torn read. */
  lemma LongLengthIsTorn(run: seq<State>, a: nat, b: nat, i: nat)
    requires Run(run) && a <= b < |run| && i < |run[a].slots| == |run[b].slots|
    requires run[a].slots[i].seqWord > 0 && run[a].slots[i].seqWord % 2 == 0
    requires run[b].slots[i].len > TL_EMBED_CAP
    ensures run[b].slots[i].seqWord != run[a].slots[i].seqWord
  {
    if run[b].slots[i].seqWord == run[a].slots[i].seqWord {
      StableBetween(run, a, b, b, i);
    }
  }

  lemma ScanLasts(run: seq<State>, start: nat, end: nat, start': nat, end': nat,
                  i: nat, obs: nat, rec: Option<Message>)
    requires Run(run) && start' <= start <= end <= end' < |run| && Scanned(run, start, end, i, obs, rec)
    ensures Scanned(run, start', end', i, obs, rec)
  {
    var t :| start <= t <= end && ScannedAt(run, t, end, i, obs, rec);
    RunGrows(run, t, end);
    RunGrows(run, end, end');
    assert ScannedAt(run, t, end', i, obs, rec);
  }

  // ----- The whole ring -----

  /** How many of the newest samples the ring holds: all slots but one being overwritten. */
  function RingWindow(s: State): nat
    requires |s.slots| > 0
  {
    |s.slots| - if Writing(s) then 1 else 0
  }

  function Min(a: nat, b: nat): nat { if a < b then a else b }

  function Messages(log: seq<Sample>): (ms: seq<Message>)
    ensures |ms| == |log|
  {
    seq(|log|, i requires 0 <= i < |log| => SlotMessage(log[i]))
  }

  /** The bounded list a latched ring stands for: the newest samples, oldest first. */
  function Replay(s: State, depth: nat): seq<Message>
    requires |s.slots| > 0
  {
    Messages(s.log[|s.log| - Min(|s.log|, Min(RingWindow(s), depth))..])
  }

  /** Message m is sample k of the log, taken from its slot under the word 2k. */
  ghost predicate FromSlot(log: seq<Sample>, n: nat, observed: seq<nat>, m: Message, k: nat)
    requires n > 0 && n == |observed|
  {
    1 <= k <= |log| && m == SlotMessage(log[k - 1]) && observed[Arith.Residue(k - 1, n)] == 2 * k
  }

  ghost predicate Collected(log: seq<Sample>, n: nat, observed: seq<nat>, ms: seq<Message>)
    requires n > 0 && n == |observed|
  {
    && (forall m | m in ms :: exists k :: FromSlot(log, n, observed, m, k))
    && AllCollected(log, observed, ms)
  }

  ghost predicate AllCollected(log: seq<Sample>, observed: seq<nat>, ms: seq<Message>) {
    forall i | 0 <= i < |observed| && observed[i] > 0 && observed[i] % 2 == 0 && observed[i] / 2 <= |log| ::
      SlotMessage(log[observed[i] / 2 - 1]) in ms
  }

  /** Of two indices k <= len and k' that share a residue, with k' the newest up to len,
      k is the newest too exactly when it is among the last n. */
  lemma NewestOfResidue(k: nat, k': nat, len: nat, n: nat)
    requires n > 0 && 1 <= k <= len
    requires k' > 0 ==> k' <= len < k' + n && Arith.Residue(k' - 1, n) == Arith.Residue(k - 1, n)
    requires k' == 0 ==> len <= Arith.Residue(k - 1, n)
    ensures k' == k <==> len < k + n
  {
    if k <= k' {
      if len < k + n { Arith.ResidueStep(k - 1, k' - k, n); }
    } else if 0 < k' {
      Arith.ResidueStep(k' - 1, k - k', n);
    }
  }

  /** The slot of sample k still holds it exactly when k is among the newest RingWindow. */
  lemma HeldInSlot(s: State, k: nat)
    requires RingInv(s) && 1 <= k <= |s.log|
    ensures s.slots[Arith.Residue(k - 1, |s.slots|)].seqWord == 2 * k <==> |s.log| < k + RingWindow(s)
  {
    var n, i := |s.slots|, Arith.Residue(k - 1, |s.slots|);
    assert SlotInv(s, i);
    if Writing(s) && i == Target(s) {
      OddInFlux(s, k);
    } else {
      NewestOfResidue(k, s.slots[i].seqWord / 2, |s.log|, n);
      assert Arith.Residue(k - 1 + n, n) == i;
    }
  }

  /** The slot being rewritten held a sample a whole ring back. */
  lemma OddInFlux(s: State, k: nat)
    requires RingInv(s) && 1 <= k <= |s.log| && Writing(s) && Arith.Residue(k - 1, |s.slots|) == Target(s)
    ensures s.slots[Arith.Residue(k - 1, |s.slots|)].seqWord != 2 * k && |s.log| >= k + RingWindow(s)
  {
    assert SlotInv(s, Target(s));
    if s.nextIndex < k + |s.slots| { Arith.ResidueStep(k - 1, s.nextIndex - k, |s.slots|); }
  }

  lemma HeldSomewhere(s: State, k: nat) returns (i: nat)
    requires RingInv(s) && 1 <= k <= |s.log| < k + RingWindow(s)
    ensures i < |s.slots| && s.slots[i].seqWord == 2 * k
  {
    HeldInSlot(s, k);
    i := Arith.Residue(k - 1, |s.slots|);
  }

  predicate WordsMatch(s: State, observed: seq<nat>) {
    |observed| == |s.slots| && forall i | 0 <= i < |observed| :: observed[i] == s.slots[i].seqWord
  }

  lemma ReplayAt(s: State, depth: nat, p: nat)
    requires |s.slots| > 0 && p < |Replay(s, depth)|
    ensures Replay(s, depth)[p] == SlotMessage(s.log[|s.log| - |Replay(s, depth)| + p])
  {}

  lemma ReplayAscends(s: State, depth: nat)
    requires |s.slots| > 0 && LogAscends(s.log)
    ensures Ascending(Replay(s, depth))
  {
    var r := Replay(s, depth);
    forall p, q | 0 <= p < q < |r|
      ensures r[p].hdr.sequenceNumber < r[q].hdr.sequenceNumber
    {
      ReplayAt(s, depth, p);
      ReplayAt(s, depth, q);
    }
  }

  lemma ScannedIsReplayed(s: State, observed: seq<nat>, m: Message, k: nat)
    requires RingInv(s) && WordsMatch(s, observed) && FromSlot(s.log, |s.slots|, observed, m, k)
    ensures m in Replay(s, |s.slots|)
  {
    HeldInSlot(s, k);
    var r := Replay(s, |s.slots|);
    ReplayAt(s, |s.slots|, k - 1 - (|s.log| - |r|));
  }

  lemma ReplayedIsScanned(s: State, observed: seq<nat>, ms: seq<Message>, p: nat)
    requires RingInv(s) && WordsMatch(s, observed) && AllCollected(s.log, observed, ms)
    requires p < |Replay(s, |s.slots|)|
    ensures Replay(s, |s.slots|)[p] in ms
  {
    var r := Replay(s, |s.slots|);
    var k := |s.log| - |r| + p + 1;
    ReplayAt(s, |s.slots|, p);
    var i := HeldSomewhere(s, k);
    assert observed[i] / 2 == k;
  }

  /** A scan whose words all match one instant is exactly the bounded list at that instant. */
  lemma SnapshotIsReplay(s: State, observed: seq<nat>, ms: seq<Message>)
    requires RingInv(s) && SequenceInv(s) && WordsMatch(s, observed)
    requires Ascending(ms) && Collected(s.log, |s.slots|, observed, ms)
    ensures ms == Replay(s, |s.slots|)
  {
    var r := Replay(s, |s.slots|);
    ReplayAscends(s, |s.slots|);
    forall m
      ensures m in ms <==> m in r
    {
      if m in ms {
        var k :| FromSlot(s.log, |s.slots|, observed, m, k);
        ScannedIsReplayed(s, observed, m, k);
      }
      if m in r {
        var p :| 0 <= p < |r| && r[p] == m;
        ReplayedIsScanned(s, observed, ms, p);
      }
    }
    AscendingUnique(ms, r);
  }

  ghost predicate AllScanned(run: seq<State>, start: nat, end: nat, observed: seq<nat>, found: seq<Option<Message>>) {
    |observed| == |found| && forall i | 0 <= i < |observed| :: Scanned(run, start, end, i, observed[i], found[i])
  }

  /** The records picked so far and, ghostly, the log index of each. */
  ghost predicate Picked(log: seq<Sample>, n: nat, observed: seq<nat>, found: seq<Option<Message>>,
                         records: seq<Message>, idx: seq<nat>)
    requires n > 0
  {
    && |idx| == |records| && |observed| == |found|
    && (forall p | 0 <= p < |idx| :: PickedAt(log, n, observed, records[p], idx[p]))
    && (forall p, q | 0 <= p < q < |idx| :: Arith.Residue(idx[p] - 1, n) < Arith.Residue(idx[q] - 1, n))
    && (forall i | 0 <= i < |found| && found[i].Some? :: found[i].value in records)
  }

  ghost predicate PickedAt(log: seq<Sample>, n: nat, observed: seq<nat>, m: Message, k: nat)
    requires n > 0
  {
    && 1 <= k <= |log| && m == SlotMessage(log[k - 1])
    && Arith.Residue(k - 1, n) < |observed| && observed[Arith.Residue(k - 1, n)] == 2 * k
  }

  lemma ScanPicks(run: seq<State>, start: nat, end: nat, i: nat, obs: nat, m: Message)
    requires Run(run) && end < |run| && Scanned(run, start, end, i, obs, Some(m))
    ensures |run[end].slots| > 0 && obs % 2 == 0
    ensures 1 <= obs / 2 <= |run[end].log| && m == SlotMessage(run[end].log[obs / 2 - 1])
    ensures Arith.Residue(obs / 2 - 1, |run[end].slots|) == i && m.hdr.sequenceNumber >= 1
  {
    var t :| start <= t <= end && ScannedAt(run, t, end, i, obs, Some(m));
    RunGrows(run, t, end);
    RunInv(run, t);
    assert SlotInv(run[t], i);
  }

  lemma ScanIsSample(run: seq<State>, start: nat, end: nat, i: nat, obs: nat, m: Message)
    requires Run(run) && end < |run| && Scanned(run, start, end, i, obs, Some(m))
    ensures 1 <= obs / 2 <= |run[end].log| && m == SlotMessage(run[end].log[obs / 2 - 1])
  {
    ScanPicks(run, start, end, i, obs, m);
  }

  lemma PickedDistinct(log: seq<Sample>, n: nat, observed: seq<nat>, found: seq<Option<Message>>,
                       records: seq<Message>, idx: seq<nat>)
    requires n > 0 && LogAscends(log) && Picked(log, n, observed, found, records, idx)
    ensures DistinctSequence(records)
  {
    forall p, q | 0 <= p < q < |records|
      ensures records[p].hdr.sequenceNumber != records[q].hdr.sequenceNumber
    {
      assert PickedAt(log, n, observed, records[p], idx[p]) && PickedAt(log, n, observed, records[q], idx[q]);
      assert idx[p] != idx[q];
    }
  }

  ghost predicate TopIs(records: seq<Message>, top: int) {
    && (records == [] ==> top == 0)
    && (records != [] ==> exists m :: m in records && m.hdr.sequenceNumber == top)
    && (forall m | m in records :: m.hdr.sequenceNumber <= top)
  }

  lemma TopIsLast(records: seq<Message>, sorted: seq<Message>, top: int)
    requires TopIs(records, top) && Ascending(sorted) && forall m :: m in sorted <==> m in records
    ensures top == LastSequence(sorted)
  {
    assert forall p | 0 <= p < |records| :: records[p] in sorted;
    if sorted != [] {
      var x := sorted[|sorted| - 1];
      assert x in records;
    }
  }

  lemma PickedLasts(log: seq<Sample>, log': seq<Sample>, n: nat, observed: seq<nat>,
                    found: seq<Option<Message>>, records: seq<Message>, idx: seq<nat>)
    requires n > 0 && log <= log' && Picked(log, n, observed, found, records, idx)
    ensures Picked(log', n, observed, found, records, idx)
  {
    forall p | 0 <= p < |idx|
      ensures PickedAt(log', n, observed, records[p], idx[p])
    {
      assert PickedAt(log, n, observed, records[p], idx[p]);
    }
  }

  lemma PickMore(log: seq<Sample>, n: nat, observed: seq<nat>, found: seq<Option<Message>>,
                 records: seq<Message>, idx: seq<nat>, obs: nat, m: Message)
    requires |observed| < n && Picked(log, n, observed, found, records, idx)
    requires obs % 2 == 0 && 1 <= obs / 2 <= |log| && m == SlotMessage(log[obs / 2 - 1])
    requires Arith.Residue(obs / 2 - 1, n) == |observed|
    ensures Picked(log, n, observed + [obs], found + [Some(m)], records + [m], idx + [obs / 2])
  {
    var observed', records', idx' := observed + [obs], records + [m], idx + [obs / 2];
    forall p | 0 <= p < |idx'|
      ensures PickedAt(log, n, observed', records'[p], idx'[p])
    {
      if p < |idx| { assert PickedAt(log, n, observed, records[p], idx[p]); }
    }
    forall p, q | 0 <= p < q < |idx'|
      ensures Arith.Residue(idx'[p] - 1, n) < Arith.Residue(idx'[q] - 1, n)
    {
      assert PickedAt(log, n, observed, records[p], idx[p]);
    }
    assert records'[|records|] == m;
  }

  lemma PickNone(log: seq<Sample>, n: nat, observed: seq<nat>, found: seq<Option<Message>>,
                 records: seq<Message>, idx: seq<nat>, obs: nat)
    requires n > 0 && Picked(log, n, observed, found, records, idx)
    ensures Picked(log, n, observed + [obs], found + [None], records, idx)
  {
    forall p | 0 <= p < |idx|
      ensures PickedAt(log, n, observed + [obs], records[p], idx[p])
    {
      assert PickedAt(log, n, observed, records[p], idx[p]);
    }
  }

  lemma TopGrows(records: seq<Message>, top: int, m: Message)
    requires TopIs(records, top) && m.hdr.sequenceNumber >= 1
    ensures TopIs(records + [m], if m.hdr.sequenceNumber > top then m.hdr.sequenceNumber else top)
  {
    var records' := records + [m];
    assert records'[|records|] == m;
    if m.hdr.sequenceNumber <= top {
      var x :| x in records && x.hdr.sequenceNumber == top;
      assert x in records';
    }
  }

  lemma ScanMore(run: seq<State>, start: nat, now: nat, next: nat, observed: seq<nat>,
                 found: seq<Option<Message>>, obs: nat, rec: Option<Message>)
    requires Run(run) && start <= now <= next < |run|
    requires AllScanned(run, start, now, observed, found)
    requires Scanned(run, now, next, |observed|, obs, rec)
    ensures AllScanned(run, start, next, observed + [obs], found + [rec])
  {
    forall j | 0 <= j < |observed|
      ensures Scanned(run, start, next, j, observed[j], found[j])
    {
      ScanLasts(run, start, now, start, next, j, observed[j], found[j]);
    }
    ScanLasts(run, now, next, start, next, |observed|, obs, rec);
  }

  /** tl_ring_pull's scan: every slot once, in order. */
  method ScanSlots(run: seq<State>, start: nat)
    returns (observed: seq<nat>, ghost found: seq<Option<Message>>, records: seq<Message>, ghost idx: seq<nat>,
             maxSeq: int, now: nat)
    requires Run(run) && start < |run|
    ensures start <= now < |run| && |run[start].slots| == |run[now].slots| == |observed| > 0
    ensures AllScanned(run, start, now, observed, found)
    ensures Picked(run[now].log, |observed|, observed, found, records, idx)
    ensures forall m | m in records :: Some(m) in found
    ensures TopIs(records, maxSeq)
  {
    RunInv(run, start);
    var n := |run[start].slots|;
    observed, found, records, idx, maxSeq, now := [], [], [], [], 0, start;
    while |observed| < n
      invariant start <= now < |run| && |observed| <= n == |run[now].slots|
      invariant AllScanned(run, start, now, observed, found)
      invariant Picked(run[now].log, n, observed, found, records, idx)
      invariant forall m | m in records :: Some(m) in found
      invariant TopIs(records, maxSeq)
    {
      var obs, rec, next := ReadSlot(run, now, |observed|);
      RunGrows(run, now, next);
      ScanMore(run, start, now, next, observed, found, obs, rec);
      PickedLasts(run[now].log, run[next].log, n, observed, found, records, idx);
      if rec.Some? {
        ScanPicks(run, now, next, |observed|, obs, rec.value);
        PickMore(run[next].log, n, observed, found, records, idx, obs, rec.value);
        TopGrows(records, maxSeq, rec.value);
        if rec.value.hdr.sequenceNumber > maxSeq {
          maxSeq := rec.value.hdr.sequenceNumber;
        }
        records, idx := records + [rec.value], idx + [obs / 2];
      } else {
        PickNone(run[next].log, n, observed, found, records, idx, obs);
      }
      ghost var found0 := found;
      now, observed, found := next, observed + [obs], found + [rec];
      assert found[|found0|] == rec && forall f | f in found0 :: f in found;
    }
  }

  // ----- What a pull returns -----

  /** The ring has not yet reused a slot, nor started to. */
  predicate Unwrapped(s: State) {
    |s.log| + (if Writing(s) then 1 else 0) <= |s.slots|
  }

  /** Sample k was still uncommitted at some time of the scan. */
  ghost predicate MissedAt(run: seq<State>, start: nat, finish: nat, k: nat) {
    exists t :: start <= t <= finish && UncommittedAt(run, t, k)
  }

  ghost predicate UncommittedAt(run: seq<State>, t: nat, k: nat) {
    t < |run| && |run[t].log| < k
  }

  ghost predicate FromLog(log: seq<Sample>, m: Message) {
    exists k :: IsSample(log, m, k)
  }

  ghost predicate IsSample(log: seq<Sample>, m: Message, k: nat) {
    1 <= k <= |log| && m == SlotMessage(log[k - 1])
  }

  /** Some slot was written to between the two times. */
  ghost predicate Moved(run: seq<State>, start: nat, finish: nat) {
    start < |run| && finish < |run| && |run[start].slots| == |run[finish].slots|
    && exists i :: 0 <= i < |run[start].slots| && run[start].slots[i].seqWord != run[finish].slots[i].seqWord
  }

  /** m was read whole from a slot that held it at some time of the scan. */
  ghost predicate WasRead(run: seq<State>, start: nat, finish: nat, m: Message) {
    exists i, obs :: Scanned(run, start, finish, i, obs, Some(m))
  }

  /** Slot i held one and the same record from `start` to `finish`. */
  ghost predicate HeldThroughout(run: seq<State>, start: nat, finish: nat, i: nat) {
    && start <= finish < |run| && i < |run[start].slots| && i < |run[finish].slots|
    && var word := run[finish].slots[i].seqWord;
    && run[start].slots[i].seqWord == word && word > 0 && word % 2 == 0 && word / 2 <= |run[finish].log|
  }

  /** m is among the records, or was cut because `depth` newer ones are. */
  ghost predicate Kept(records: seq<Message>, depth: nat, m: Message) {
    m in records || (|records| == depth && forall r | r in records :: m.hdr.sequenceNumber < r.hdr.sequenceNumber)
  }

  /** The records are what the slots were found to hold, or the newest `depth` of it. */
  ghost predicate NewestOf(found: seq<Option<Message>>, depth: nat, records: seq<Message>) {
    && (forall m | m in records :: Some(m) in found)
    && forall i | 0 <= i < |found| && found[i].Some? :: Kept(records, depth, found[i].value)
  }

  /** Every record was read from a slot, and whatever a slot held throughout is kept, unless
      the depth is filled by newer records. */
  ghost predicate ReadsAndKeeps(run: seq<State>, start: nat, finish: nat, depth: nat, records: seq<Message>) {
    && (forall m | m in records :: WasRead(run, start, finish, m))
    && (forall i: nat | HeldThroughout(run, start, finish, i) ::
          Kept(records, depth, SlotMessage(run[finish].log[run[finish].slots[i].seqWord / 2 - 1])))
  }

  /** What tl_ring_pull guarantees about a scan from `start` to `finish`.  Without overlap
      the result is the bounded list at one instant of the scan.  With overlap in a ring
      that has not wrapped, whatever is absent was not yet committed when it was missed.
      Overlap is reported only when a writer did touch the ring. */
  ghost predicate PullResult(run: seq<State>, start: nat, instant: nat, finish: nat, depth: nat,
                             records: seq<Message>, maxSeq: int, overlapped: bool) {
    && start <= instant <= finish < |run| && |run[instant].slots| > 0
    && |records| <= depth && Ascending(records) && maxSeq == LastSequence(records)
    && (forall m | m in records :: FromLog(run[finish].log, m))
    && ReadsAndKeeps(run, start, finish, depth, records)
    && (!overlapped ==> records == Replay(run[instant], depth))
    && (overlapped ==> Moved(run, start, finish))
    && (Unwrapped(run[finish]) && |run[finish].log| <= depth ==>
        forall k | 1 <= k <= |run[finish].log| ::
          SlotMessage(run[finish].log[k - 1]) in records || MissedAt(run, start, finish, k))
  }

  /** A slot that held one record throughout was read, and yielded it. */
  lemma HeldIsFound(run: seq<State>, start: nat, instant: nat, finish: nat, i: nat,
                    observed: seq<nat>, found: seq<Option<Message>>)
    requires Run(run) && start <= instant <= finish < |run| && AllScanned(run, start, instant, observed, found)
    requires HeldThroughout(run, start, finish, i) && i < |observed|
    ensures found[i] == Some(SlotMessage(run[finish].log[run[finish].slots[i].seqWord / 2 - 1]))
  {
    assert Scanned(run, start, instant, i, observed[i], found[i]);
    var t :| start <= t <= instant && ScannedAt(run, t, instant, i, observed[i], found[i]);
    RunGrows(run, start, t);
    RunGrows(run, t, instant);
    RunGrows(run, instant, finish);
  }

  lemma FoundWasRead(run: seq<State>, start: nat, instant: nat, finish: nat, observed: seq<nat>,
                     found: seq<Option<Message>>, m: Message)
    requires Run(run) && start <= instant <= finish < |run| && AllScanned(run, start, instant, observed, found)
    requires Some(m) in found
    ensures WasRead(run, start, finish, m)
  {
    var i :| 0 <= i < |found| && found[i] == Some(m);
    ScanLasts(run, start, instant, start, finish, i, observed[i], found[i]);
  }

  lemma NewestKept(sorted: seq<Message>, depth: nat, m: Message)
    requires Ascending(sorted) && m in sorted
    ensures Kept(Newest(sorted, depth), depth, m)
  {
    var p :| 0 <= p < |sorted| && sorted[p] == m;
    var r := Newest(sorted, depth);
    if |sorted| > depth && p >= |sorted| - depth {
      assert r[p - (|sorted| - depth)] == m;
    }
  }

  /** Which records a pull reads and keeps, overlapped or not, wrapped or not. */
  lemma ReadAndKept(run: seq<State>, start: nat, instant: nat, finish: nat, depth: nat, observed: seq<nat>,
                    found: seq<Option<Message>>, picked: seq<Message>, sorted: seq<Message>)
    requires Run(run) && start <= instant <= finish < |run| && AllScanned(run, start, instant, observed, found)
    requires |observed| == |run[instant].slots| && (forall m | m in picked :: Some(m) in found)
    requires forall i | 0 <= i < |found| && found[i].Some? :: found[i].value in picked
    requires Ascending(sorted) && forall m :: m in sorted <==> m in picked
    ensures ReadsAndKeeps(run, start, finish, depth, Newest(sorted, depth)) && NewestOf(found, depth, Newest(sorted, depth))
  {
    forall i | 0 <= i < |found| && found[i].Some?
      ensures Kept(Newest(sorted, depth), depth, found[i].value)
    {
      NewestKept(sorted, depth, found[i].value);
    }
    forall m | m in Newest(sorted, depth)
      ensures WasRead(run, start, finish, m)
    {
      assert m in sorted;
      FoundWasRead(run, start, instant, finish, observed, found, m);
    }
    RunGrows(run, instant, finish);
    forall i: nat | HeldThroughout(run, start, finish, i)
      ensures Kept(Newest(sorted, depth), depth, SlotMessage(run[finish].log[run[finish].slots[i].seqWord / 2 - 1]))
    {
      HeldIsFound(run, start, instant, finish, i, observed, found);
      NewestKept(sorted, depth, found[i].value);
    }
  }

  /** In an unwrapped ring, a slot scanned without yielding its sample was not yet committed. */
  lemma MissedWhenAbsent(run: seq<State>, start: nat, end: nat, k: nat, obs: nat)
    requires Run(run) && end < |run| && Unwrapped(run[end]) && 1 <= k <= |run[end].log|
    requires Scanned(run, start, end, k - 1, obs, None)
    ensures MissedAt(run, start, end, k)
  {
    var i := k - 1;
    var t :| start <= t <= end && ScannedAt(run, t, end, i, obs, None);
    RunGrows(run, t, end);
    RunInv(run, t);
    RunInv(run, end);
    var n := |run[end].slots|;
    assert SlotInv(run[t], i) && SlotInv(run[end], i);
    HeldInSlot(run[end], k);
    assert run[end].slots[i].seqWord == 2 * k;
    if obs == 0 || obs % 2 == 1 {
      assert UncommittedAt(run, t, k);
    } else {
    }
  }

  lemma TakenWhenPresent(run: seq<State>, start: nat, end: nat, k: nat, obs: nat, m: Message)
    requires Run(run) && end < |run| && Unwrapped(run[end]) && 1 <= k <= |run[end].log|
    requires Scanned(run, start, end, k - 1, obs, Some(m))
    ensures m == SlotMessage(run[end].log[k - 1])
  {
    ScanPicks(run, start, end, k - 1, obs, m);
    RunInv(run, end);
    var n := |run[end].slots|;
  }

  lemma UnwrappedComplete(run: seq<State>, start: nat, instant: nat, finish: nat, observed: seq<nat>,
                          found: seq<Option<Message>>, records: seq<Message>)
    requires Run(run) && start <= instant <= finish < |run| && Unwrapped(run[finish])
    requires AllScanned(run, start, instant, observed, found) && |observed| == |run[finish].slots|
    requires forall i | 0 <= i < |found| && found[i].Some? :: found[i].value in records
    ensures forall k | 1 <= k <= |run[finish].log| ::
              SlotMessage(run[finish].log[k - 1]) in records || MissedAt(run, start, finish, k)
  {
    forall k | 1 <= k <= |run[finish].log|
      ensures SlotMessage(run[finish].log[k - 1]) in records || MissedAt(run, start, finish, k)
    {
      ScanLasts(run, start, instant, start, finish, k - 1, observed[k - 1], found[k - 1]);
      match found[k - 1]
      case Some(m) => TakenWhenPresent(run, start, finish, k, observed[k - 1], m);
      case None => MissedWhenAbsent(run, start, finish, k, observed[k - 1]);
    }
  }

  /** An unwrapped ring yields no more records than there are committed samples. */
  lemma {:induction false} UnwrappedCount(log: seq<Sample>, n: nat, observed: seq<nat>, found: seq<Option<Message>>,
                                          records: seq<Message>, idx: seq<nat>, p: nat)
    requires |log| <= n && n > 0 && Picked(log, n, observed, found, records, idx) && p < |idx|
    ensures idx[p] >= p + 1
    decreases p
  {
    assert PickedAt(log, n, observed, records[p], idx[p]);
    if p > 0 {
      UnwrappedCount(log, n, observed, found, records, idx, p - 1);
      assert PickedAt(log, n, observed, records[p - 1], idx[p - 1]);
    }
  }

  lemma PickedFromSlots(log: seq<Sample>, n: nat, observed: seq<nat>, found: seq<Option<Message>>,
                        records: seq<Message>, idx: seq<nat>, m: Message)
    requires n > 0 && n == |observed| && Picked(log, n, observed, found, records, idx) && m in records
    ensures exists k :: FromSlot(log, n, observed, m, k)
  {
    var p :| 0 <= p < |records| && records[p] == m;
    assert PickedAt(log, n, observed, m, idx[p]);
    assert FromSlot(log, n, observed, m, idx[p]);
  }

  lemma AllFoundCollected(run: seq<State>, start: nat, instant: nat, observed: seq<nat>,
                          found: seq<Option<Message>>, sorted: seq<Message>)
    requires Run(run) && instant < |run|
    requires AllScanned(run, start, instant, observed, found) && WordsMatch(run[instant], observed)
    requires forall i | 0 <= i < |found| && found[i].Some? :: found[i].value in sorted
    ensures AllCollected(run[instant].log, observed, sorted)
  {
    var log := run[instant].log;
    forall i | 0 <= i < |observed| && observed[i] > 0 && observed[i] % 2 == 0 && observed[i] / 2 <= |log|
      ensures SlotMessage(log[observed[i] / 2 - 1]) in sorted
    {
      assert Scanned(run, start, instant, i, observed[i], found[i]);
      assert found[i].Some?;
      ScanIsSample(run, start, instant, i, observed[i], found[i].value);
    }
  }

  /** Words unmoved since the scan make its records those of the instant the scan ended. */
  lemma SnapshotCollected(run: seq<State>, start: nat, instant: nat, observed: seq<nat>,
                          found: seq<Option<Message>>, records: seq<Message>, idx: seq<nat>, sorted: seq<Message>)
    requires Run(run) && instant < |run| && |observed| > 0
    requires AllScanned(run, start, instant, observed, found) && WordsMatch(run[instant], observed)
    requires Picked(run[instant].log, |observed|, observed, found, records, idx)
    requires forall m :: m in sorted <==> m in records
    ensures Collected(run[instant].log, |observed|, observed, sorted)
  {
    var log, n := run[instant].log, |observed|;
    forall m | m in sorted
      ensures exists k :: FromSlot(log, n, observed, m, k)
    {
      PickedFromSlots(log, n, observed, found, records, idx, m);
    }
    AllFoundCollected(run, start, instant, observed, found, sorted);
  }

  lemma UnoverlappedIsReplay(
      run: seq<State>, start: nat, instant: nat, depth: nat, observed: seq<nat>, found: seq<Option<Message>>,
      picked: seq<Message>, idx: seq<nat>, sorted: seq<Message>)
    requires Run(run) && start <= instant < |run| && 0 < |observed| == |run[instant].slots|
    requires AllScanned(run, start, instant, observed, found) && WordsMatch(run[instant], observed)
    requires Picked(run[instant].log, |observed|, observed, found, picked, idx)
    requires Ascending(sorted) && forall m :: m in sorted <==> m in picked
    ensures Newest(sorted, depth) == Replay(run[instant], depth)
  {
    RunInv(run, instant);
    SnapshotCollected(run, start, instant, observed, found, picked, idx, sorted);
    SnapshotIsReplay(run[instant], observed, sorted);
  }

  lemma NewestKeepsOrder(sorted: seq<Message>, depth: nat)
    requires Ascending(sorted) && depth > 0
    ensures var r := Newest(sorted, depth);
            Ascending(r) && |r| <= depth && LastSequence(r) == LastSequence(sorted)
            && (forall m | m in r :: m in sorted) && (|sorted| <= depth ==> r == sorted)
  {}

  lemma PickedFromLog(log: seq<Sample>, n: nat, observed: seq<nat>, found: seq<Option<Message>>,
                      records: seq<Message>, idx: seq<nat>)
    requires n > 0 && Picked(log, n, observed, found, records, idx)
    ensures forall m | m in records :: FromLog(log, m)
  {
    forall m | m in records
      ensures FromLog(log, m)
    {
      var p :| 0 <= p < |records| && records[p] == m;
      assert PickedAt(log, n, observed, m, idx[p]);
      assert IsSample(log, m, idx[p]);
    }
  }

  lemma WordUnmoved(run: seq<State>, start: nat, instant: nat, now: nat, i: nat, obs: nat, rec: Option<Message>)
    requires Run(run) && instant <= now < |run| && Scanned(run, start, instant, i, obs, rec)
    requires i < |run[now].slots| && run[now].slots[i].seqWord == obs
    ensures i < |run[instant].slots| && run[instant].slots[i].seqWord == obs
  {
    var t :| start <= t <= instant && ScannedAt(run, t, instant, i, obs, rec);
    RunGrows(run, t, instant);
    RunGrows(run, instant, now);
  }

  lemma WordMoved(run: seq<State>, start: nat, instant: nat, now: nat, i: nat, obs: nat, rec: Option<Message>)
    requires Run(run) && start <= instant <= now < |run| && Scanned(run, start, instant, i, obs, rec)
    requires i < |run[now].slots| && run[now].slots[i].seqWord != obs
    ensures Moved(run, start, now)
  {
    var t :| start <= t <= instant && ScannedAt(run, t, instant, i, obs, rec);
    RunGrows(run, start, t);
    RunGrows(run, t, now);
    assert run[start].slots[i].seqWord != run[now].slots[i].seqWord;
  }

  /** Overlap detection: every slot is read again, those that yielded nothing included. */
  method Recheck(run: seq<State>, start: nat, instant: nat, observed: seq<nat>, ghost found: seq<Option<Message>>)
    returns (overlapped: bool, now: nat)
    requires Run(run) && start <= instant < |run| && |observed| == |run[instant].slots|
    requires AllScanned(run, start, instant, observed, found)
    ensures instant <= now < |run|
    ensures if overlapped then Moved(run, start, now) else WordsMatch(run[instant], observed)
  {
    overlapped, now := false, instant;
    var i := 0;
    while i < |observed|
      invariant instant <= now < |run| && i <= |observed| && !overlapped
      invariant forall j | 0 <= j < i :: observed[j] == run[instant].slots[j].seqWord
    {
      now := Later(now, |run|);
      RunGrows(run, instant, now);
      if run[now].slots[i].seqWord != observed[i] {
        WordMoved(run, start, instant, now, i, observed[i], found[i]);
        overlapped := true;
        return;
      }
      WordUnmoved(run, start, instant, now, i, observed[i], found[i]);
      i := i + 1;
    }
  }

  /** The records of a scan, sorted and cut to the newest `depth`, meet PullResult. */
  lemma ScanMeetsPullResult(
      run: seq<State>, start: nat, instant: nat, finish: nat, depth: nat, overlapped: bool,
      observed: seq<nat>, found: seq<Option<Message>>, picked: seq<Message>, idx: seq<nat>,
      sorted: seq<Message>, maxSeq: int)
    requires Run(run) && start <= instant <= finish < |run| && 0 < |observed| == |run[instant].slots| && depth > 0
    requires AllScanned(run, start, instant, observed, found)
    requires Picked(run[instant].log, |observed|, observed, found, picked, idx) && TopIs(picked, maxSeq)
    requires forall m | m in picked :: Some(m) in found
    requires if overlapped then Moved(run, start, finish) else WordsMatch(run[instant], observed)
    requires Ascending(sorted) && |sorted| == |picked| && forall m :: m in sorted <==> m in picked
    ensures PullResult(run, start, instant, finish, depth, Newest(sorted, depth), maxSeq, overlapped)
    ensures NewestOf(found, depth, Newest(sorted, depth))
  {
    RunGrows(run, instant, finish);
    TopIsLast(picked, sorted, maxSeq);
    PickedLasts(run[instant].log, run[finish].log, |observed|, observed, found, picked, idx);
    PickedFromLog(run[finish].log, |observed|, observed, found, picked, idx);
    NewestKeepsOrder(sorted, depth);
    ReadAndKept(run, start, instant, finish, depth, observed, found, picked, sorted);
    if !overlapped {
      UnoverlappedIsReplay(run, start, instant, depth, observed, found, picked, idx, sorted);
    }
    if Unwrapped(run[finish]) && |run[finish].log| <= depth {
      UnwrappedComplete(run, start, instant, finish, observed, found, sorted);
      UnwrappedFits(run[finish].log, |observed|, observed, found, picked, idx);
    }
  }

  lemma UnwrappedFits(log: seq<Sample>, n: nat, observed: seq<nat>, found: seq<Option<Message>>,
                      records: seq<Message>, idx: seq<nat>)
    requires |log| <= n && n > 0 && Picked(log, n, observed, found, records, idx)
    ensures |records| <= |log|
  {
    if |idx| > 0 {
      UnwrappedCount(log, n, observed, found, records, idx, |idx| - 1);
      assert PickedAt(log, n, observed, records[|idx| - 1], idx[|idx| - 1]);
    }
  }

  function Newest(ms: seq<Message>, depth: nat): seq<Message> {
    if |ms| > depth then ms[|ms| - depth..] else ms
  }

  /** tl_ring_pull: scan every slot, scan the words again, sort, and keep the newest `depth`. */
  method TlRingPull(run: seq<State>, start: nat, depth: nat)
    returns (records: seq<Message>, maxSeq: int, overlapped: bool, ghost found: seq<Option<Message>>, instant: nat, now: nat)
    requires Run(run) && start < |run|
    ensures PullResult(run, start, instant, now, depth, records, maxSeq, overlapped)
    ensures depth > 0 ==> NewestOf(found, depth, records) && |found| == |run[instant].slots|
                          && exists observed :: AllScanned(run, start, instant, observed, found)
  {
    found := [];
    if depth == 0 {
      RunInv(run, start);
      records, maxSeq, overlapped, instant, now := [], 0, false, start, start;
      return;
    }
    var observed, picked;
    ghost var idx;
    observed, found, picked, idx, maxSeq, now := ScanSlots(run, start);
    instant := now;
    overlapped, now := Recheck(run, start, instant, observed, found);
    RunInv(run, instant);
    PickedDistinct(run[instant].log, |observed|, observed, found, picked, idx);
    var sorted := SortBySequence(picked);
    ScanMeetsPullResult(run, start, instant, now, depth, overlapped, observed, found, picked, idx, sorted, maxSeq);
    records := Newest(sorted, depth);
  }
}
