/** What can go wrong in the registry, and from where.

    A fill that overlaps the slot's previous teardown: the state is emptied before the
    payload is zeroed, so a second process can claim and publish the slot while the first
    has yet to zero it.  And two sweeps at once: the seq re-check and the CAS are separate,
    so one can reap the live entry that replaced the dead one both had vetted. */
module RegistryLoss {
  import opened Wire
  import opened Schedule
  import opened RegistryProtocol
  import opened RegistryRead
  import opened RegistrySweep

  function Zeros(): (c: Cells)
    ensures |c| == ENTRY_CELLS
  {
    seq(ENTRY_CELLS, j => 0)
  }

  // ----- Going on undisturbed -----

  /** run' goes on from run with steps of t, none of which spoils the guard. */
  ghost predicate GoesOn(run: seq<State>, actor: seq<nat>, run': seq<State>, actor': seq<nat>) {
    && Run(run', actor') && run <= run' && actor <= actor' && |run| == |actor|
    && (Guarded(run, actor) ==> Guarded(run', actor'))
  }

  lemma Extend(run: seq<State>, actor: seq<nat>, s: State, t: nat) returns (run': seq<State>, actor': seq<nat>)
    requires Run(run, actor) && Step(Last(run), s, t) && (PcOf(Last(run), t).Claimed? ==> FillsClear(Last(run), s, t))
    ensures GoesOn(run, actor, run', actor') && run' == run + [s] && actor' == actor + [t]
  {
    Append(run, actor, s, t);
    run', actor' := run + [s], actor + [t];
    if Guarded(run, actor) {
      forall u | 0 < u < |run'|
        ensures ClearAt(run', actor', u)
      {
        if u < |run| { assert ClearAt(run, actor, u); }
      }
    }
  }

  lemma {:induction false} FillRest(run: seq<State>, actor: seq<nat>, t: nat) returns (run': seq<State>, actor': seq<nat>)
    requires Run(run, actor) && PcOf(Last(run), t).Filling? && EntryOk(PcOf(Last(run), t).entry)
    requires var pc := PcOf(Last(run), t);
             && pc.i < |Last(run).slots| && |Last(run).slots[pc.i].cells| == ENTRY_CELLS && pc.done <= ENTRY_CELLS
             && Last(run).slots[pc.i].cells[..pc.done] == pc.entry.payload[..pc.done]
    ensures GoesOn(run, actor, run', actor')
    ensures var s, pc := Last(run), PcOf(Last(run), t);
            Last(run') == MoveAt(s, t, Filling(pc.entry, pc.i, pc.id, ENTRY_CELLS), pc.i,
                                 s.slots[pc.i].(cells := pc.entry.payload))
    decreases ENTRY_CELLS - PcOf(Last(run), t).done
  {
    var s, pc := Last(run), PcOf(Last(run), t);
    var slot := s.slots[pc.i];
    if pc.done == ENTRY_CELLS {
      run', actor' := run, actor;
      assert slot.cells == slot.cells[..pc.done] == pc.entry.payload[..pc.done] == pc.entry.payload;
      assert s.slots == s.slots[pc.i := slot] && s.threads == s.threads[t := pc];
    } else {
      var slot1 := slot.(cells := slot.cells[pc.done := pc.entry.payload[pc.done]]);
      var s1 := MoveAt(s, t, Filling(pc.entry, pc.i, pc.id, pc.done + 1), pc.i, slot1);
      assert FillCell(s, s1, t);
      run', actor' := Extend(run, actor, s1, t);
      run', actor' := FillRest(run', actor', t);
    }
  }

  /** A writer whose seq word is odd can go on to publish its entry. */
  lemma FillOn(run: seq<State>, actor: seq<nat>, t: nat) returns (run': seq<State>, actor': seq<nat>)
    requires Run(run, actor) && PcOf(Last(run), t).Filling? && EntryOk(PcOf(Last(run), t).entry)
    requires PcOf(Last(run), t).done == 0 && PcOf(Last(run), t).i < |Last(run).slots|
    ensures GoesOn(run, actor, run', actor')
    ensures var s, pc := Last(run), PcOf(Last(run), t);
            Last(run') == MoveAt(s, t, Shown(pc.entry, pc.i, pc.id), pc.i,
                                 s.slots[pc.i].(seqWord := s.slots[pc.i].seqWord + 1, cells := pc.entry.payload,
                                                fill := Some(pc.entry), state := Published(pc.entry.kind))).(
                            publishes := s.publishes + 1)
  {
    var s, pc := Last(run), PcOf(Last(run), t);
    SlotSize(run, actor, pc.i);
    run', actor' := FillRest(run, actor, t);
    var s2 := Last(run');
    var slot2 := s2.slots[pc.i];
    var s3 := MoveAt(s2, t, Filled(pc.entry, pc.i, pc.id), pc.i,
                     slot2.(seqWord := slot2.seqWord + 1, fill := Some(pc.entry)));
    assert EndFill(s2, s3, t);
    run', actor' := Extend(run', actor', s3, t);
    var slot3 := s3.slots[pc.i];
    var s4 := MoveAt(s3, t, Shown(pc.entry, pc.i, pc.id), pc.i, slot3.(state := Published(pc.entry.kind))).(
                publishes := s3.publishes + 1);
    assert Publish(s3, s4, t);
    run', actor' := Extend(run', actor', s4, t);
  }

  /** The odd word; the guard holds on exactly if no teardown is in flight. */
  lemma BeginTheFill(run: seq<State>, actor: seq<nat>, t: nat) returns (run': seq<State>, actor': seq<nat>)
    requires Run(run, actor) && PcOf(Last(run), t).Claimed? && PcOf(Last(run), t).i < |Last(run).slots|
    ensures Run(run', actor') && run <= run' && actor <= actor'
    ensures Guarded(run, actor) ==>
              (Guarded(run', actor') <==> forall u :: !TearingAt(PcOf(Last(run), u), PcOf(Last(run), t).i))
    ensures var s, pc := Last(run), PcOf(Last(run), t);
            Last(run') == MoveAt(s, t, Filling(pc.entry, pc.i, pc.id, 0), pc.i,
                                 s.slots[pc.i].(seqWord := s.slots[pc.i].seqWord + 1, fill := None))
  {
    var s, pc := Last(run), PcOf(Last(run), t);
    var slot := s.slots[pc.i];
    var s1 := MoveAt(s, t, Filling(pc.entry, pc.i, pc.id, 0), pc.i, slot.(seqWord := slot.seqWord + 1, fill := None));
    assert BeginFill(s, s1, t);
    Append(run, actor, s1, t);
    run', actor' := run + [s1], actor + [t];
    if forall u :: !TearingAt(PcOf(s, u), pc.i) {
      var r, a := Extend(run, actor, s1, t);
    } else {
      assert !ClearAt(run', actor', |run|);
    }
  }

  /** A claimant can go on to publish its entry. */
  lemma FillAndPublish(run: seq<State>, actor: seq<nat>, t: nat) returns (run': seq<State>, actor': seq<nat>)
    requires Run(run, actor) && PcOf(Last(run), t).Claimed? && EntryOk(PcOf(Last(run), t).entry)
    requires PcOf(Last(run), t).i < |Last(run).slots|
    ensures Run(run', actor') && run <= run' && actor <= actor'
    ensures Guarded(run, actor) ==>
              (Guarded(run', actor') <==> forall u :: !TearingAt(PcOf(Last(run), u), PcOf(Last(run), t).i))
    ensures var s, pc := Last(run), PcOf(Last(run), t);
            Last(run') == MoveAt(s, t, Shown(pc.entry, pc.i, pc.id), pc.i,
                                 s.slots[pc.i].(seqWord := s.slots[pc.i].seqWord + 2, cells := pc.entry.payload,
                                                fill := Some(pc.entry), state := Published(pc.entry.kind))).(
                            publishes := s.publishes + 1)
  {
    var mid, midBy := BeginTheFill(run, actor, t);
    run', actor' := FillOn(mid, midBy, t);
    if !Guarded(mid, midBy) { StaysUnguarded(mid, midBy, run', actor'); }
  }

  lemma {:induction false} ZeroRest(run: seq<State>, actor: seq<nat>, t: nat) returns (run': seq<State>, actor': seq<nat>)
    requires Run(run, actor) && PcOf(Last(run), t).Zeroing?
    requires var pc := PcOf(Last(run), t);
             pc.i < |Last(run).slots| && |Last(run).slots[pc.i].cells| == ENTRY_CELLS && pc.done <= ENTRY_CELLS
    ensures GoesOn(run, actor, run', actor')
    ensures var s, pc := Last(run), PcOf(Last(run), t);
            Last(run') == MoveAt(s, t, Zeroing(pc.i, ENTRY_CELLS), pc.i,
                                 s.slots[pc.i].(cells := s.slots[pc.i].cells[..pc.done] + Zeros()[pc.done..]))
    decreases ENTRY_CELLS - PcOf(Last(run), t).done
  {
    var s, pc := Last(run), PcOf(Last(run), t);
    var slot := s.slots[pc.i];
    if pc.done == ENTRY_CELLS {
      run', actor' := run, actor;
      assert slot.cells == slot.cells[..pc.done] + Zeros()[pc.done..];
      assert s.slots == s.slots[pc.i := slot] && s.threads == s.threads[t := pc];
    } else {
      var slot1 := slot.(cells := slot.cells[pc.done := 0]);
      var s1 := MoveAt(s, t, Zeroing(pc.i, pc.done + 1), pc.i, slot1);
      assert ZeroCell(s, s1, t);
      run', actor' := Extend(run, actor, s1, t);
      run', actor' := ZeroRest(run', actor', t);
      assert slot1.cells[..pc.done + 1] + Zeros()[pc.done + 1..] == slot.cells[..pc.done] + Zeros()[pc.done..];
    }
  }

  /** How many payload bytes a teardown has zeroed. */
  function ZeroedSoFar(pc: Pc): nat { if pc.Zeroing? then pc.done else 0 }

  /** A remover whose seq word is odd can go on to the end of its teardown. */
  lemma ZeroOn(run: seq<State>, actor: seq<nat>, t: nat, i: nat) returns (run': seq<State>, actor': seq<nat>)
    requires Run(run, actor) && PcOf(Last(run), t).Zeroing? && PcOf(Last(run), t).i == i < |Last(run).slots|
    requires PcOf(Last(run), t).done <= ENTRY_CELLS == |Last(run).slots[i].cells|
    ensures GoesOn(run, actor, run', actor')
    ensures var s, done := Last(run), PcOf(Last(run), t).done;
            Last(run') == MoveAt(s, t, Torn(i), i,
                                 s.slots[i].(seqWord := s.slots[i].seqWord + 1,
                                             cells := s.slots[i].cells[..done] + Zeros()[done..], tearer := None))
  {
    run', actor' := ZeroRest(run, actor, t);
    var s2 := Last(run');
    var slot2 := s2.slots[i];
    var s3 := MoveAt(s2, t, Torn(i), i, slot2.(seqWord := slot2.seqWord + 1, tearer := None));
    assert EndZero(s2, s3, t);
    run', actor' := Extend(run', actor', s3, t);
  }

  /** A remover can go on to the end of its teardown. */
  lemma ZeroSlot(run: seq<State>, actor: seq<nat>, t: nat, i: nat) returns (run': seq<State>, actor': seq<nat>)
    requires Run(run, actor) && TearingAt(PcOf(Last(run), t), i) && i < |Last(run).slots|
    requires ZeroedSoFar(PcOf(Last(run), t)) <= ENTRY_CELLS == |Last(run).slots[i].cells|
    ensures GoesOn(run, actor, run', actor')
    ensures var s, pc := Last(run), PcOf(Last(run), t);
            Last(run') == MoveAt(s, t, Torn(i), i,
                                 s.slots[i].(seqWord := s.slots[i].seqWord + if pc.Tearing? then 2 else 1,
                                             cells := s.slots[i].cells[..ZeroedSoFar(pc)] + Zeros()[ZeroedSoFar(pc)..],
                                             fill := if pc.Tearing? then None else s.slots[i].fill, tearer := None))
  {
    var s := Last(run);
    if PcOf(s, t).Tearing? {
      var s1 := MoveAt(s, t, Zeroing(i, 0), i, s.slots[i].(seqWord := s.slots[i].seqWord + 1, fill := None));
      assert BeginZero(s, s1, t);
      var mid, midBy := Extend(run, actor, s1, t);
      run', actor' := ZeroOn(mid, midBy, t, i);
    } else {
      run', actor' := ZeroOn(run, actor, t, i);
    }
  }

  // ----- A fill that overlaps a teardown -----

  /** Thread t has published an entry in slot i, readers accept the slot, and it does not hold
      that entry. */
  predicate Misrepresents(s: State, i: nat, t: nat) {
    var pc := PcOf(s, t);
    && AfterPublish(pc) && pc.i == i < |s.slots| && s.slots[i].claim == pc.id
    && s.slots[i].state.Published? && s.slots[i].seqWord % 2 == 0
    && s.slots[i].cells != pc.entry.payload
  }

  /** A slot that readers accept although no entry at all has its payload. */
  predicate Corrupt(s: State, i: nat) {
    && i < |s.slots| && s.slots[i].state.Published? && s.slots[i].seqWord % 2 == 0
    && forall k :: !EntryOk(Entry(k, s.slots[i].cells))
  }

  lemma GuardedIsSound(run: seq<State>, actor: seq<nat>, u: nat, i: nat, t: nat)
    requires Run(run, actor) && u < |run|
    ensures Guarded(run, actor) ==> !Misrepresents(run[u], i, t) && !Corrupt(run[u], i)
  {
    if Guarded(run, actor) {
      RunSeqlock(run, actor, u);
      assert WriterOk(run[u], t);
      if i < |run[u].slots| && run[u].slots[i].state.Published? {
        assert WordOk(run[u], i);
        assert EntryOk(Entry(run[u].slots[i].fill.value.kind, run[u].slots[i].cells));
      }
    }
  }

  /** WHAT THE GUARD SEPARATES.  Take any guarded run that ends with a slot claimed while a
      teardown of it is in flight, at whatever byte.  The claimant goes on to publish, which
      breaks the guard, and the remover to finish.  Readers are then shown a payload that is
      not the entry's exactly when a byte still to be zeroed was not zero in the entry. */
  lemma OverlapMisrepresentsIff(run: seq<State>, actor: seq<nat>, remover: nat, adder: nat, i: nat)
    returns (run': seq<State>, actor': seq<nat>)
    requires Run(run, actor) && Guarded(run, actor) && i < |Last(run).slots|
    requires TearingAt(PcOf(Last(run), remover), i)
    requires PcOf(Last(run), adder).Claimed? && PcOf(Last(run), adder).i == i
    ensures Run(run', actor') && run <= run' && actor <= actor' && !Guarded(run', actor')
    ensures EntryOk(PcOf(Last(run), adder).entry) && ZeroedSoFar(PcOf(Last(run), remover)) <= ENTRY_CELLS
    ensures var done := ZeroedSoFar(PcOf(Last(run), remover));
            Misrepresents(Last(run'), i, adder) <==> PcOf(Last(run), adder).entry.payload[done..] != Zeros()[done..]
    ensures PcOf(Last(run), remover).Tearing? ==> Misrepresents(Last(run'), i, adder) && Corrupt(Last(run'), i)
  {
    RunSeqlock(run, actor, |run| - 1);
    assert WriterOk(Last(run), remover) && WriterOk(Last(run), adder) && OwnerOk(Last(run), adder);
    SlotSize(run, actor, i);
    var e, done := PcOf(Last(run), adder).entry, ZeroedSoFar(PcOf(Last(run), remover));
    run', actor' := FillAndPublish(run, actor, adder);
    var mid, midBy := run', actor';
    run', actor' := ZeroSlot(mid, midBy, remover, i);
    StaysUnguarded(mid, midBy, run', actor');
    HalfZeroed(e, done);
  }

  /** A payload with its tail zeroed is the payload exactly if the tail was zero. */
  lemma HalfZeroed(e: Entry, done: nat)
    requires EntryOk(e) && done <= ENTRY_CELLS
    ensures e.payload[..done] + Zeros()[done..] != e.payload <==> e.payload[done..] != Zeros()[done..]
    ensures done == 0 ==> NoPid(e.payload[..done] + Zeros()[done..]) && e.payload[done..] != Zeros()[done..]
  {
    assert e.payload == e.payload[..done] + e.payload[done..];
    assert (e.payload[..done] + Zeros()[done..])[done..] == Zeros()[done..];
    if done == 0 {
      assert e.payload[0..] == e.payload && e.payload[..0] + Zeros()[0..] == Zeros();
      assert Zeros()[..PID_BYTES] == [0, 0, 0, 0];
    }
  }

  lemma StaysUnguarded(run: seq<State>, actor: seq<nat>, run': seq<State>, actor': seq<nat>)
    requires run <= run' && actor <= actor' && |run| == |actor| && |run'| == |actor'| && !Guarded(run, actor)
    ensures !Guarded(run', actor')
  {
    if Guarded(run', actor') { GuardedBefore(run, actor, run', actor'); }
  }

  // ----- From an empty registry -----

  /** A thread wins the claim of the empty slot 0. */
  lemma ClaimFirst(run: seq<State>, actor: seq<nat>, t: nat, e: Entry) returns (run': seq<State>, actor': seq<nat>)
    requires Run(run, actor) && EntryOk(e) && PcOf(Last(run), t).Out?
    requires |Last(run).slots| > 0 && Last(run).slots[0].state == Empty
    ensures GoesOn(run, actor, run', actor')
    ensures var s := Last(run);
            Last(run') == MoveAt(s, t, Claimed(e, 0, s.nextClaim), 0,
                                 s.slots[0].(state := Reserved, claimant := t, claim := s.nextClaim, bumpedAt := 0)).(
                            nextClaim := s.nextClaim + 1)
  {
    var s := Last(run);
    run', actor' := Extend(run, actor, Move(s, t, Adding(e, 0)), t);
    var a := Last(run');
    var c := MoveAt(a, t, Claimed(e, 0, a.nextClaim), 0,
                    a.slots[0].(state := Reserved, claimant := t, claim := a.nextClaim, bumpedAt := 0)).(
               nextClaim := a.nextClaim + 1);
    assert Claim(a, c, t);
    run', actor' := Extend(run', actor', c, t);
    assert c.threads == s.threads[t := Claimed(e, 0, s.nextClaim)];
  }

  /** A thread that expects the right type wins the removal of slot 0. */
  lemma WinRemoval(run: seq<State>, actor: seq<nat>, t: nat) returns (run': seq<State>, actor': seq<nat>)
    requires Run(run, actor) && |Last(run).slots| > 0 && Last(run).slots[0].state.Published?
    requires PcOf(Last(run), t) == RemoveLoaded(0, Last(run).slots[0].state.kind)
    ensures GoesOn(run, actor, run', actor') && |run'| == |run| + 1 && actor'[|run|] == t
    ensures var s := Last(run);
            Last(run') == MoveAt(s, t, Tearing(0), 0,
                                 s.slots[0].(state := Empty, tearer := Some(t), claim := 0, bumpedAt := 0)).(
                            removals := s.removals + 1)
  {
    var s := Last(run);
    var s' := MoveAt(s, t, Tearing(0), 0, s.slots[0].(state := Empty, tearer := Some(t), claim := 0, bumpedAt := 0)).(
                removals := s.removals + 1);
    assert RemoveCas(s, s', t);
    run', actor' := Extend(run, actor, s', t);
  }

  /** Thread 1 publishes e in slot 0 of an empty registry. */
  lemma PublishFirst(s: State, e: Entry) returns (run: seq<State>, actor: seq<nat>)
    requires Init(s) && |s.slots| > 0 && EntryOk(e)
    ensures Run(run, actor) && run[0] == s && Guarded(run, actor) && |Last(run).slots| > 0
    ensures Last(run).threads == map[1 := Shown(e, 0, 1)] && Last(run).nextClaim == 2
    ensures ShowsAt(run, |run| - 1, 0, e) && Last(run).slots[0].tearer == None
  {
    run, actor := ClaimFirst([s], [0], 1, e);
    run, actor := FillAndPublish(run, actor, 1);
  }

  /** CORRUPTION IS REACHABLE: thread 1 adds, thread 2 removes, thread 3 claims before thread
      2 has zeroed; readers then accept a slot no entry accounts for. */
  lemma UnguardedCanCorrupt(s: State, e: Entry) returns (run: seq<State>, actor: seq<nat>)
    requires Init(s) && |s.slots| > 0 && EntryOk(e)
    ensures Run(run, actor) && run[0] == s && Corrupt(Last(run), 0) && Misrepresents(Last(run), 0, 3)
    ensures !Guarded(run, actor)
  {
    run, actor := PublishFirst(s, e);
    run, actor := Extend(run, actor, Move(Last(run), 2, RemoveLoaded(0, e.kind)), 2);
    run, actor := WinRemoval(run, actor, 2);
    run, actor := ClaimFirst(run, actor, 3, e);
    run, actor := OverlapMisrepresentsIff(run, actor, 2, 3, 0);
  }

  // ----- Two sweeps at once -----

  /** Thread 1's dead entry in slot 0, vetted by threads 2 and 3, and removed by thread 3. */
  lemma BothVet(s: State, dead: Entry) returns (seen: seq<State>, run: seq<State>, actor: seq<nat>)
    requires Init(s) && |s.slots| > 0 && EntryOk(dead)
    ensures Run(run, actor) && Guarded(run, actor) && run[0] == s && 0 < |seen| && seen <= run && |run| == |seen| + 3
    ensures ShowsAt(seen, |seen| - 1, 0, dead)
    ensures actor[|seen|] == 2 && PcOf(run[|seen|], 2) == RemoveLoaded(0, dead.kind)
    ensures RemovedBy(run, actor, |run| - 1, 3, 0) && |Last(run).slots| > 0 && Last(run).slots[0].state == Empty
    ensures Last(run).threads == map[1 := Shown(dead, 0, 1), 2 := RemoveLoaded(0, dead.kind), 3 := Tearing(0)]
  {
    run, actor := PublishFirst(s, dead);
    seen := run;
    run, actor := Extend(run, actor, Move(Last(run), 2, RemoveLoaded(0, dead.kind)), 2);
    run, actor := Extend(run, actor, Move(Last(run), 3, RemoveLoaded(0, dead.kind)), 3);
    run, actor := WinRemoval(run, actor, 3);
  }

  /** Threads 2 and 3 both vet the dead entry of slot 0.  Thread 3 removes it, thread 4 adds a
      live entry of the same type there, and thread 2's CAS still finds the type it expects. */
  lemma TwoSweepsReapLive(s: State, dead: Entry, live: Entry) returns (run: seq<State>, actor: seq<nat>)
    requires Init(s) && |s.slots| > 0 && EntryOk(dead) && EntryOk(live)
    requires dead.kind == live.kind && Pid(dead) != Pid(live)
    ensures Run(run, actor) && Guarded(run, actor) && run[0] == s
    ensures exists s0, c, u :: Reaping(run, actor, 0, 2, 0, {Pid(dead)}, s0, c, u, dead) && run[u - 1].slots[0].fill == Some(live)
  {
    var seen, removed, removedBy := BothVet(s, dead);
    var replaced, replacedBy := Replace(removed, removedBy, live);
    run, actor := WinRemoval(replaced, replacedBy, 2);
    assert RemovedBy(run, actor, |run| - 1, 2, 0) by { assert run[|run| - 2] == Last(replaced); }
    TwoSweepsIn(seen, removed, removedBy, run, actor, |seen| - 1, |run| - 1, dead);
  }

  /** Thread 3 finishes its teardown of slot 0 and thread 4 publishes another entry there. */
  lemma Replace(run: seq<State>, actor: seq<nat>, live: Entry) returns (run': seq<State>, actor': seq<nat>)
    requires Run(run, actor) && EntryOk(live) && PcOf(Last(run), 3) == Tearing(0) && PcOf(Last(run), 4).Out?
    requires |Last(run).slots| > 0 && Last(run).slots[0].state == Empty
    requires forall t :: t != 3 ==> !TearingAt(PcOf(Last(run), t), 0)
    ensures GoesOn(run, actor, run', actor') && PcOf(Last(run'), 2) == PcOf(Last(run), 2)
    ensures |Last(run').slots| > 0 && Last(run').slots[0].state == Published(live.kind)
    ensures Last(run').slots[0].fill == Some(live)
  {
    SlotSize(run, actor, 0);
    run', actor' := ZeroSlot(run, actor, 3, 0);
    run', actor' := ClaimFirst(run', actor', 4, live);
    forall u
      ensures !TearingAt(PcOf(Last(run'), u), 0)
    {
      assert u != 3 ==> !TearingAt(PcOf(Last(run), u), 0);
    }
    run', actor' := FillAndPublish(run', actor', 4);
  }

  lemma TwoSweepsIn(seen: seq<State>, removed: seq<State>, removedBy: seq<nat>, run: seq<State>, actor: seq<nat>,
                    c: nat, u: nat, dead: Entry)
    requires Run(run, actor) && Guarded(run, actor)
    requires seen <= removed <= run && removedBy <= actor && |removed| == |removedBy|
    requires c == |seen| - 1 && ShowsAt(seen, c, 0, dead) && c + 1 < |removed| <= u < |run|
    requires removedBy[c + 1] == 2 && PcOf(removed[c + 1], 2) == RemoveLoaded(0, dead.kind)
    requires RemovedBy(run, actor, u, 2, 0)
    ensures Reaping(run, actor, 0, 2, 0, {Pid(dead)}, c, c, u, dead)
  {
    assert run[c] == seen[c] && run[c + 1] == removed[c + 1];
    assert ShowsAt(run, c, 0, dead);
    WhatIsRemoved(run, actor, c, u - 1, 0, dead);
  }
}
