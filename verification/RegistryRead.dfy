/** Readers of the registry: snapshot_slot, registry_query, and the publisher's
    generation-keyed subscriber cache.

    Each reader runs against the history `run` of the shared registry; every load happens
    at some time no earlier than the load before it, chosen arbitrarily. */
module RegistryRead {
  import opened Wire
  import opened Schedule
  import opened RegistryProtocol

  const MAX_READ_RETRIES := 16

  // ----- The seqlock of one slot, under the guard -----

  predicate HoldsEntry(slot: Slot, e: Entry) {
    EntryOk(e) && slot.cells == e.payload && slot.fill == Some(e)
  }

  /** How far thread t's own write of a slot has come. */
  predicate WriterOk(s: State, t: nat) {
    var pc := PcOf(s, t);
    && (pc.Adding? || InClaim(pc) ==> EntryOk(pc.entry))
    && (pc.Filling? && pc.i < |s.slots| ==>
          && s.slots[pc.i].seqWord % 2 == 1 && s.slots[pc.i].tearer == None
          && pc.done <= ENTRY_CELLS <= |s.slots[pc.i].cells|
          && s.slots[pc.i].cells[..pc.done] == pc.entry.payload[..pc.done])
    && (pc.Filled? && pc.i < |s.slots| ==>
          && s.slots[pc.i].seqWord % 2 == 0 && s.slots[pc.i].tearer == None
          && HoldsEntry(s.slots[pc.i], pc.entry))
    && (AfterPublish(pc) && pc.i < |s.slots| && s.slots[pc.i].claim == pc.id ==> HoldsEntry(s.slots[pc.i], pc.entry))
    && (pc.Tearing? || pc.Zeroing? ==>
          && pc.i < |s.slots| && s.slots[pc.i].tearer == Some(t) && !s.slots[pc.i].state.Published?
          && (pc.Zeroing? <==> s.slots[pc.i].seqWord % 2 == 1) && (pc.Zeroing? ==> pc.done <= ENTRY_CELLS))
  }

  predicate WordOk(s: State, i: nat)
    requires i < |s.slots|
  {
    var slot := s.slots[i];
    && (slot.tearer.Some? ==> TearingAt(PcOf(s, slot.tearer.value), i))
    && (slot.seqWord % 2 == 1 ==>
          slot.tearer.Some? || (slot.state == Reserved && PcOf(s, slot.claimant).Filling?))
    && (slot.state.Published? ==>
          && slot.seqWord % 2 == 0 && slot.tearer == None
          && slot.fill.Some? && HoldsEntry(slot, slot.fill.value) && slot.fill.value.kind == slot.state.kind)
  }

  ghost predicate SeqlockInv(s: State) {
    && (forall t :: WriterOk(s, t))
    && (forall i | 0 <= i < |s.slots| :: WordOk(s, i))
  }

  lemma AdderKeepsWriter(s: State, s': State, t: nat)
    requires ClaimInv(s) && SeqlockInv(s) && AddStep(s, s', t) && FillsClear(s, s', t)
    ensures WriterOk(s', t)
  {
    assert OwnerOk(s, t) && WriterOk(s, t);
    if InClaim(PcOf(s, t)) {
      assert WordOk(s, PcOf(s, t).i) && SlotOwned(s, PcOf(s, t).i);
    }
  }

  lemma RemoverKeepsWriter(s: State, s': State, t: nat)
    requires ClaimInv(s) && SeqlockInv(s) && RemoveStep(s, s', t)
    ensures WriterOk(s', t)
  {
    assert WriterOk(s, t);
    if !PcOf(s, t).Out? && PcOf(s, t).i < |s.slots| {
      assert WordOk(s, PcOf(s, t).i) && SlotOwned(s, PcOf(s, t).i);
    }
  }

  /** The writes of the acting thread never touch a slot another thread is writing. */
  lemma StepKeepsOtherWriter(s: State, s': State, t: nat, u: nat)
    requires ClaimInv(s) && SeqlockInv(s) && Step(s, s', t) && FillsClear(s, s', t) && u != t
    ensures WriterOk(s', u)
  {
    StepShape(s, s', t);
    assert PcOf(s', u) == PcOf(s, u);
    assert OwnerOk(s, t) && WriterOk(s, t) && OwnerOk(s, u) && WriterOk(s, u);
  }

  lemma StepKeepsWord(s: State, s': State, t: nat, i: nat)
    requires ClaimInv(s) && SeqlockInv(s) && Step(s, s', t) && FillsClear(s, s', t) && i < |s.slots|
    ensures |s'.slots| == |s.slots| && WordOk(s', i)
  {
    StepShape(s, s', t);
    assert WordOk(s, i) && SlotOwned(s, i) && OwnerOk(s, t) && WriterOk(s, t);
  }

  lemma SeqlockStep(s: State, s': State, t: nat)
    requires ClaimInv(s) && SeqlockInv(s) && Step(s, s', t) && FillsClear(s, s', t)
    ensures SeqlockInv(s')
  {
    forall u
      ensures WriterOk(s', u)
    {
      if u != t {
        StepKeepsOtherWriter(s, s', t, u);
      } else if AddStep(s, s', t) {
        AdderKeepsWriter(s, s', t);
      } else {
        RemoverKeepsWriter(s, s', t);
      }
    }
    StepShape(s, s', t);
    forall i | 0 <= i < |s'.slots|
      ensures WordOk(s', i)
    {
      StepKeepsWord(s, s', t, i);
    }
  }

  lemma {:induction false} RunSeqlock(run: seq<State>, actor: seq<nat>, u: nat)
    requires Run(run, actor) && Guarded(run, actor) && u < |run|
    ensures ClaimInv(run[u]) && SeqlockInv(run[u])
  {
    RunInv(run, actor, u);
    if u > 0 {
      RunSeqlock(run, actor, u - 1);
      assert Linked(run, actor, u) && ClearAt(run, actor, u);
      SeqlockStep(run[u - 1], run[u], actor[u]);
    }
  }

  // ----- snapshot_slot -----

  /** Between two sightings of the same even word, nobody wrote the slot. */
  lemma StepSteady(s: State, s': State, t: nat, i: nat)
    requires ClaimInv(s) && SeqlockInv(s) && Step(s, s', t) && i < |s.slots| == |s'.slots|
    requires s.slots[i].seqWord == s'.slots[i].seqWord && s.slots[i].seqWord % 2 == 0
    ensures s.slots[i].cells == s'.slots[i].cells && s.slots[i].fill == s'.slots[i].fill
  {
    StepShape(s, s', t);
    assert WriterOk(s, t);
  }

  lemma {:induction false} Steady(run: seq<State>, actor: seq<nat>, a: nat, t: nat, b: nat, i: nat)
    requires Run(run, actor) && Guarded(run, actor) && a <= t <= b < |run| && i < |run[a].slots|
    requires |run[a].slots| == |run[b].slots| && run[a].slots[i].seqWord == run[b].slots[i].seqWord
    requires run[a].slots[i].seqWord % 2 == 0
    ensures |run[t].slots| == |run[a].slots| && run[t].slots[i].seqWord == run[a].slots[i].seqWord
    ensures run[t].slots[i].cells == run[a].slots[i].cells && run[t].slots[i].fill == run[a].slots[i].fill
    decreases t
  {
    RunGrows(run, actor, a, t);
    RunGrows(run, actor, t, b);
    if a < t {
      Steady(run, actor, a, t - 1, b, i);
      RunSeqlock(run, actor, t - 1);
      assert Linked(run, actor, t);
      StepSteady(run[t - 1], run[t], actor[t], i);
    }
  }

  /** Slot i showed exactly entry e at time t. */
  ghost predicate ShowsAt(run: seq<State>, t: nat, i: nat, e: Entry) {
    && t < |run| && i < |run[t].slots|
    && run[t].slots[i].state == Published(e.kind) && HoldsEntry(run[t].slots[i], e)
  }

  ghost predicate Shows(run: seq<State>, a: nat, b: nat, i: nat, e: Entry) {
    exists t :: a <= t <= b && ShowsAt(run, t, i, e)
  }

  /** Slot i showed e all through [a, b], without being rewritten. */
  ghost predicate Undisturbed(run: seq<State>, a: nat, b: nat, i: nat, e: Entry) {
    && a <= b < |run| && i < |run[a].slots|
    && forall t | a <= t <= b :: ShowsAt(run, t, i, e) && run[t].slots[i].seqWord == run[a].slots[i].seqWord
  }

  ghost predicate CopiedAt(run: seq<State>, t: nat, i: nat, j: nat, cell: int) {
    t < |run| && i < |run[t].slots| && j < |run[t].slots[i].cells| && run[t].slots[i].cells[j] == cell
  }

  ghost predicate CopiedBetween(run: seq<State>, a: nat, b: nat, i: nat, j: nat, cell: int) {
    exists t :: a <= t <= b && CopiedAt(run, t, i, j, cell)
  }

  ghost predicate CellsCopied(run: seq<State>, a: nat, b: nat, i: nat, cells: Cells) {
    forall j | 0 <= j < |cells| :: CopiedBetween(run, a, b, i, j, cells[j])
  }

  lemma CopyLasts(run: seq<State>, a: nat, b: nat, a': nat, b': nat, i: nat, cells: Cells)
    requires CellsCopied(run, a, b, i, cells) && a' <= a && b <= b'
    ensures CellsCopied(run, a', b', i, cells)
  {
    forall j | 0 <= j < |cells|
      ensures CopiedBetween(run, a', b', i, j, cells[j])
    {
      var t :| a <= t <= b && CopiedAt(run, t, i, j, cells[j]);
    }
  }

  /** The non-atomic copy of a slot's payload, each byte at its own time. */
  method CopyPayload(run: seq<State>, actor: seq<nat>, start: nat, i: nat) returns (cells: Cells, now: nat)
    requires Run(run, actor) && start < |run| && i < |run[start].slots|
    ensures start <= now < |run| && |cells| == ENTRY_CELLS && CellsCopied(run, start, now, i, cells)
  {
    cells, now := [], start;
    while |cells| < ENTRY_CELLS
      invariant start <= now < |run| && |cells| <= ENTRY_CELLS && CellsCopied(run, start, now, i, cells)
    {
      ghost var before := now;
      now := Later(now, |run|);
      CopyLasts(run, start, before, start, now, i, cells);
      RunGrows(run, actor, start, now);
      RunInv(run, actor, now);
      assert SlotOwned(run[now], i);
      assert CopiedAt(run, now, i, |cells|, run[now].slots[i].cells[|cells|]);
      cells := cells + [run[now].slots[i].cells[|cells|]];
    }
  }

  /** A payload copied between two sightings of one even word is the entry shown in between. */
  lemma CopyIsEntry(run: seq<State>, actor: seq<nat>, a: nat, shown: nat, b: nat, i: nat, cells: Cells)
    requires Run(run, actor) && Guarded(run, actor) && a <= shown <= b < |run|
    requires i < |run[a].slots| == |run[b].slots| == |run[shown].slots|
    requires run[a].slots[i].seqWord == run[b].slots[i].seqWord && run[a].slots[i].seqWord % 2 == 0
    requires run[shown].slots[i].state.Published?
    requires |cells| == ENTRY_CELLS && CellsCopied(run, a, b, i, cells)
    ensures ShowsAt(run, shown, i, Entry(run[shown].slots[i].state.kind, cells))
  {
    RunSeqlock(run, actor, shown);
    var slot := run[shown].slots[i];
    assert WordOk(run[shown], i) && SlotOwned(run[shown], i);
    Steady(run, actor, a, shown, b, i);
    forall j | 0 <= j < |cells|
      ensures cells[j] == slot.cells[j]
    {
      assert CopiedBetween(run, a, b, i, j, cells[j]);
      var t :| a <= t <= b && CopiedAt(run, t, i, j, cells[j]);
      Steady(run, actor, a, t, b, i);
    }
    assert cells == slot.cells;
  }

  /** What any successful snapshot is: a type the slot showed and bytes it held. */
  ghost predicate Sampled(run: seq<State>, a: nat, b: nat, i: nat, e: Entry) {
    && |e.payload| == ENTRY_CELLS && CellsCopied(run, a, b, i, e.payload)
    && exists t :: a <= t <= b && t < |run| && i < |run[t].slots| && run[t].slots[i].state == Published(e.kind)
  }

  /** SNAPSHOT CONSISTENCY: in a guarded run a successful snapshot is one single published
      entry, never a mix, and an entry left undisturbed is not missed.  In any run it is
      made of what the slot showed and held. */
  method SnapshotSlot(run: seq<State>, actor: seq<nat>, start: nat, i: nat)
    returns (found: Option<Entry>, seqWord: nat, now: nat)
    requires Run(run, actor) && start < |run| && i < |run[start].slots|
    ensures start <= now < |run| && i < |run[now].slots|
    ensures found.Some? ==> Sampled(run, start, now, i, found.value)
    ensures found.Some? ==> seqWord % 2 == 0 && run[now].slots[i].seqWord == seqWord
    ensures Guarded(run, actor) && found.Some? ==> Shows(run, start, now, i, found.value)
    ensures Guarded(run, actor) && found.Some? ==> run[now].slots[i].fill == Some(found.value)
    ensures Guarded(run, actor) ==> forall e :: Undisturbed(run, start, now, i, e) ==> found == Some(e)
  {
    now, seqWord := start, 0;
    var retry := 0;
    while retry < MAX_READ_RETRIES
      invariant start <= now < |run| && i < |run[now].slots| && retry <= MAX_READ_RETRIES
      invariant retry > 0 && Guarded(run, actor) ==> forall e :: !Undisturbed(run, start, now, i, e)
    {
      now := Later(now, |run|);
      RunGrows(run, actor, start, now);
      var s1, first := run[now].slots[i].seqWord, now;
      if s1 % 2 == 1 {
        if Guarded(run, actor) { OddIsDisturbed(run, actor, start, now, i); }
        retry := retry + 1;
        continue;
      }
      now := Later(now, |run|);
      RunGrows(run, actor, start, now);
      var st, shown := run[now].slots[i].state, now;
      if !st.Published? {
        return None, 0, now;
      }
      var cells;
      cells, now := CopyPayload(run, actor, now, i);
      ghost var copied := now;
      now := Later(now, |run|);
      RunGrows(run, actor, start, now);
      if run[now].slots[i].seqWord == s1 {
        found, seqWord := Some(Entry(st.kind, cells)), s1;
        CopyLasts(run, shown, copied, start, now, i, cells);
        if Guarded(run, actor) {
          CopyLasts(run, shown, copied, first, now, i, cells);
          SteadyCopy(run, actor, start, first, shown, now, i, found.value);
        }
        return;
      }
      retry := retry + 1;
    }
    return None, 0, now;
  }

  /** What a steady seq word around a copy is worth. */
  lemma SteadyCopy(run: seq<State>, actor: seq<nat>, start: nat, first: nat, shown: nat, now: nat, i: nat, e: Entry)
    requires Run(run, actor) && Guarded(run, actor) && start <= first <= shown <= now < |run|
    requires i < |run[first].slots| == |run[now].slots| == |run[shown].slots|
    requires run[first].slots[i].seqWord == run[now].slots[i].seqWord && run[first].slots[i].seqWord % 2 == 0
    requires run[shown].slots[i].state == Published(e.kind)
    requires |e.payload| == ENTRY_CELLS && CellsCopied(run, first, now, i, e.payload)
    ensures Shows(run, start, now, i, e) && run[now].slots[i].fill == Some(e)
    ensures forall f :: Undisturbed(run, start, now, i, f) ==> f == e
  {
    CopyIsEntry(run, actor, first, shown, now, i, e.payload);
    assert ShowsAt(run, shown, i, e);
    Steady(run, actor, first, shown, now, i);
    Steady(run, actor, first, now, now, i);
    forall f | Undisturbed(run, start, now, i, f)
      ensures f == e
    {
      assert ShowsAt(run, shown, i, f);
    }
  }

  lemma OddIsDisturbed(run: seq<State>, actor: seq<nat>, start: nat, now: nat, i: nat)
    requires Run(run, actor) && Guarded(run, actor) && start <= now < |run|
    requires i < |run[start].slots| == |run[now].slots| && run[now].slots[i].seqWord % 2 == 1
    ensures forall e :: !Undisturbed(run, start, now, i, e)
  {
    RunSeqlock(run, actor, now);
    assert WordOk(run[now], i);
    forall e
      ensures !Undisturbed(run, start, now, i, e)
    {
      assert !ShowsAt(run, now, i, e);
    }
  }

  lemma GuardedBefore(run: seq<State>, actor: seq<nat>, run': seq<State>, actor': seq<nat>)
    requires run <= run' && actor <= actor' && |run| == |actor| && |run'| == |actor'| && Guarded(run', actor')
    ensures Guarded(run, actor)
  {
    forall u | 0 < u < |run|
      ensures ClearAt(run, actor, u)
    {
      assert run'[u] == run[u] && run'[u - 1] == run[u - 1] && ClearAt(run', actor', u);
    }
  }

  // ----- What removal does to a published entry -----

  /** While a slot stays published nobody changes its entry. */
  lemma StepKeepsEntry(s: State, s': State, t: nat, i: nat)
    requires ClaimInv(s) && SeqlockInv(s) && Step(s, s', t) && i < |s.slots| == |s'.slots|
    requires s.slots[i].state.Published?
    ensures s'.slots[i].state == Empty || (s'.slots[i].state == s.slots[i].state && s'.slots[i].fill == s.slots[i].fill)
  {
    StepShape(s, s', t);
    assert OwnerOk(s, t) && WriterOk(s, t);
  }

  /** Between two sightings of a published slot the entry is the same, or somebody removed it. */
  lemma {:induction false} SameUnlessRemoved(run: seq<State>, actor: seq<nat>, a: nat, b: nat, i: nat)
    requires Run(run, actor) && Guarded(run, actor) && a <= b < |run| && i < |run[a].slots| && i < |run[b].slots|
    requires run[a].slots[i].state.Published?
    ensures (run[b].slots[i].state == run[a].slots[i].state && run[b].slots[i].fill == run[a].slots[i].fill)
            || exists w, me :: a < w <= b && RemovedBy(run, actor, w, me, i)
    decreases b
  {
    if a < b {
      RunGrows(run, actor, a, b - 1);
      SameUnlessRemoved(run, actor, a, b - 1, i);
      RunSeqlock(run, actor, b - 1);
      assert Linked(run, actor, b);
      if run[b - 1].slots[i].state == run[a].slots[i].state && run[b - 1].slots[i].fill == run[a].slots[i].fill {
        StepKeepsEntry(run[b - 1], run[b], actor[b], i);
        assert run[b].slots[i].state == Empty ==> RemovedBy(run, actor, b, actor[b], i);
      }
    }
  }
}
