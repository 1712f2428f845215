/** The writers' code of the registry: registry_add, registry_remove, registry_cleanup_stale.

    The shared segment is represented by its history; each atomic access these methods make
    appends the step of RegistryProtocol it is, and other processes may step in between. */
module RegistryWriter {
  import opened Wire
  import opened Schedule
  import opened RegistryProtocol
  import opened RegistryRead
  import opened RegistrySweep

  /** Step u of the run is `me` publishing `entry` in slot i. */
  predicate PublishedBy(run: seq<State>, actor: seq<nat>, u: nat, me: nat, i: int, entry: Entry) {
    && 0 < u < |run| == |actor| && actor[u] == me && Publish(run[u - 1], run[u], me)
    && PcOf(run[u - 1], me).i == i && PcOf(run[u - 1], me).entry == entry
  }

  /** Since time a, `me` has published the entry in slot i and afterwards announced it; in a
      guarded run the slot then showed exactly this entry. */
  ghost predicate Added(run: seq<State>, actor: seq<nat>, a: nat, me: nat, i: nat, entry: Entry) {
    exists u, v :: a <= u < v && PublishedBy(run, actor, u, me, i, entry) && AnnouncedBy(run, actor, v, me)
                   && (Guarded(run, actor) ==> ShowsAt(run, u, i, entry))
  }

  lemma AddedSince(run: seq<State>, actor: seq<nat>, a: nat, a': nat, me: nat, i: nat, entry: Entry)
    requires Added(run, actor, a, me, i, entry) && a' <= a
    ensures Added(run, actor, a', me, i, entry)
  {
    var u: nat, v: nat :| a <= u < v && PublishedBy(run, actor, u, me, i, entry) && AnnouncedBy(run, actor, v, me)
                          && (Guarded(run, actor) ==> ShowsAt(run, u, i, entry));
    assert a' <= u;
  }

  lemma FilledHolds(run: seq<State>, actor: seq<nat>, me: nat)
    requires Run(run, actor) && PcOf(Last(run), me).Filled? && PcOf(Last(run), me).i < |Last(run).slots|
    ensures Guarded(run, actor) ==> HoldsEntry(Last(run).slots[PcOf(Last(run), me).i], PcOf(Last(run), me).entry)
  {
    if Guarded(run, actor) {
      RunSeqlock(run, actor, |run| - 1);
      assert WriterOk(Last(run), me);
    }
  }

  lemma PublishedShows(run: seq<State>, actor: seq<nat>, u: nat, me: nat, i: nat, entry: Entry)
    requires Run(run, actor) && PublishedBy(run, actor, u, me, i, entry)
    ensures Guarded(run, actor) ==> ShowsAt(run, u, i, entry)
  {
    if Guarded(run, actor) {
      RunInv(run, actor, u - 1);
      RunSeqlock(run, actor, u);
      assert OwnerOk(run[u - 1], me) && WriterOk(run[u], me);
    }
  }

  /** Step u of the run is `me` announcing its add. */
  predicate AnnouncedBy(run: seq<State>, actor: seq<nat>, u: nat, me: nat) {
    0 < u < |run| == |actor| && actor[u] == me && Bump(run[u - 1], run[u], me)
  }

  predicate RemovalAnnouncedBy(run: seq<State>, actor: seq<nat>, u: nat, me: nat) {
    0 < u < |run| == |actor| && actor[u] == me && BumpRemoved(run[u - 1], run[u], me)
  }

  ghost predicate OccupiedSince(run: seq<State>, a: nat, i: nat) {
    exists u :: a <= u < |run| && i < |run[u].slots| && run[u].slots[i].state != Empty
  }

  /** Other threads' steps never move thread `me`. */
  lemma {:induction false} OthersLeaveAlone(run: seq<State>, actor: seq<nat>, a: nat, b: nat, me: nat)
    requires Run(run, actor) && a <= b < |run| && forall u | a < u <= b :: actor[u] != me
    ensures PcOf(run[b], me) == PcOf(run[a], me) && |run[b].slots| == |run[a].slots|
    decreases b
  {
    if a < b {
      OthersLeaveAlone(run, actor, a, b - 1, me);
      assert Linked(run, actor, b);
      StepShape(run[b - 1], run[b], actor[b]);
    }
  }

  class SharedRegistry {
    var run: seq<State>
    var actor: seq<nat>

    ghost predicate Valid()
      reads this
    {
      Run(run, actor)
    }

    function Now(): State
      requires |run| > 0
      reads this
    {
      Last(run)
    }

    constructor (s: State)
      requires Init(s)
      ensures Valid() && run == [s]
    {
      run, actor := [s], [0];
    }

    /** Any number of steps of other threads.  Callers know this contract and nothing else,
        so their proofs hold for every interleaving; OthersLeaveAlone is why `me` stays put. */
    method Interfere(me: nat)
      requires Valid()
      modifies this
      ensures Valid() && old(run) <= run && old(actor) <= actor
      ensures forall u | old(|run|) <= u < |run| :: actor[u] != me
      ensures PcOf(Now(), me) == old(PcOf(Now(), me)) && |Now().slots| == old(|Now().slots|)
    {}

    /** One atomic access of thread `me`. */
    method Do(me: nat, s: State)
      requires Valid() && Step(Now(), s, me)
      modifies this
      ensures Valid() && run == old(run) + [s] && actor == old(actor) + [me]
      ensures |Now().slots| == old(|Now().slots|) && SameExcept(old(Now()), Now(), At(old(PcOf(Now(), me))))
    {
      Append(run, actor, s, me);
      StepShape(Now(), s, me);
      run, actor := run + [s], actor + [me];
    }

    /** write_slot_payload */
    method WriteSlotPayload(me: nat, entry: Entry, i: nat, id: nat)
      requires Valid() && EntryOk(entry) && PcOf(Now(), me) == Claimed(entry, i, id)
      modifies this
      ensures Valid() && old(run) <= run && old(actor) <= actor && |Now().slots| == old(|Now().slots|)
      ensures PcOf(Now(), me) == Filled(entry, i, id) && TouchesOnly(run, actor, old(|run|), me, {i})
      ensures i < |Now().slots| && (Guarded(run, actor) ==> HoldsEntry(Now().slots[i], entry))
    {
      Interfere(me);
      StillMine(run, actor, me);
      var slot := Now().slots[i];
      Do(me, MoveAt(Now(), me, Filling(entry, i, id, 0), i, slot.(seqWord := slot.seqWord + 1, fill := None)));
      ghost var begun, begunBy := run, actor;
      assert TouchesOnly(begun, begunBy, old(|run|), me, {i});
      CopyEntry(me, entry, i, id);
      TouchesJoin(begun, begunBy, run, actor, old(|run|), me, {i}, {i});
      begun, begunBy := run, actor;
      EndWrite(me, entry, i, id);
      TouchesJoin(begun, begunBy, run, actor, old(|run|), me, {i}, {i});
    }

    /** The closing seq word: the slot holds the entry. */
    method EndWrite(me: nat, entry: Entry, i: nat, id: nat)
      requires Valid() && EntryOk(entry) && PcOf(Now(), me) == Filling(entry, i, id, ENTRY_CELLS)
      modifies this
      ensures Valid() && old(run) <= run && old(actor) <= actor && |Now().slots| == old(|Now().slots|)
      ensures PcOf(Now(), me) == Filled(entry, i, id) && TouchesOnly(run, actor, old(|run|), me, {i})
      ensures i < |Now().slots| && (Guarded(run, actor) ==> HoldsEntry(Now().slots[i], entry))
    {
      Interfere(me);
      StillMine(run, actor, me);
      var slot := Now().slots[i];
      Do(me, MoveAt(Now(), me, Filled(entry, i, id), i, slot.(seqWord := slot.seqWord + 1, fill := Some(entry))));
      FilledHolds(run, actor, me);
    }

    /** The field-by-field copy of the entry, byte by byte. */
    method CopyEntry(me: nat, entry: Entry, i: nat, id: nat)
      requires Valid() && EntryOk(entry) && PcOf(Now(), me) == Filling(entry, i, id, 0)
      modifies this
      ensures Valid() && old(run) <= run && old(actor) <= actor && |Now().slots| == old(|Now().slots|)
      ensures PcOf(Now(), me) == Filling(entry, i, id, ENTRY_CELLS) && TouchesOnly(run, actor, old(|run|), me, {i})
    {
      var done := 0;
      while done < ENTRY_CELLS
        invariant Valid() && old(run) <= run && old(actor) <= actor && |Now().slots| == old(|Now().slots|)
        invariant done <= ENTRY_CELLS && PcOf(Now(), me) == Filling(entry, i, id, done)
        invariant TouchesOnly(run, actor, old(|run|), me, {i})
      {
        ghost var before, beforeBy := run, actor;
        Interfere(me);
        StillMine(run, actor, me);
        var slot := Now().slots[i];
        ghost var mid, midBy := run, actor;
        Do(me, MoveAt(Now(), me, Filling(entry, i, id, done + 1), i,
                      slot.(cells := slot.cells[done := entry.payload[done]])));
        TouchesStep(before, beforeBy, mid, midBy, Now(), old(|run|), me, {i}, {i});
        done := done + 1;
      }
    }

    /** The CAS-max loop on the high-water word, without spurious failures. */
    method WidenHighWater(me: nat, entry: Entry, i: nat, id: nat)
      requires Valid() && PcOf(Now(), me) == Shown(entry, i, id)
      modifies this
      ensures Valid() && old(run) <= run && old(actor) <= actor && |Now().slots| == old(|Now().slots|)
      ensures PcOf(Now(), me) == Widened(entry, i, id) && i < Now().highWater
      ensures TouchesOnly(run, actor, old(|run|), me, {})
    {
      Interfere(me);
      var want, cur := i + 1, Now().highWater;
      Do(me, Move(Now(), me, Widening(entry, i, id, cur)));
      while cur < want
        invariant Valid() && old(run) <= run && old(actor) <= actor && |Now().slots| == old(|Now().slots|)
        invariant PcOf(Now(), me) == Widening(entry, i, id, cur)
               || (PcOf(Now(), me) == Widened(entry, i, id) && cur >= want)
        invariant TouchesOnly(run, actor, old(|run|), me, {})
        decreases want - cur
      {
        ghost var before, beforeBy := run, actor;
        cur := TryWiden(me, entry, i, id, cur);
        TouchesJoin(before, beforeBy, run, actor, old(|run|), me, {}, {});
      }
      if PcOf(Now(), me).Widening? {
        ghost var before, beforeBy := run, actor;
        Do(me, Move(Now(), me, Widened(entry, i, id)));
        TouchesStep(before, beforeBy, before, beforeBy, Now(), old(|run|), me, {}, {});
      }
      RunInv(run, actor, |run| - 1);
    }

    /** One compare-exchange of the loop: the value the loop goes on with. */
    method TryWiden(me: nat, entry: Entry, i: nat, id: nat, cur: nat) returns (next: nat)
      requires Valid() && PcOf(Now(), me) == Widening(entry, i, id, cur) && cur < i + 1
      modifies this
      ensures Valid() && old(run) <= run && old(actor) <= actor && |Now().slots| == old(|Now().slots|)
      ensures next > cur && TouchesOnly(run, actor, old(|run|), me, {})
      ensures PcOf(Now(), me) == Widening(entry, i, id, next)
              || (PcOf(Now(), me) == Widened(entry, i, id) && next >= i + 1)
    {
      Interfere(me);
      RunInv(run, actor, |run| - 1);
      if Now().highWater == cur {
        Do(me, Move(Now(), me, Widened(entry, i, id)).(highWater := i + 1));
        next := i + 1;
      } else {
        next := Now().highWater;
        Do(me, Move(Now(), me, Widening(entry, i, id, next)));
      }
    }

    /** The rest of an add once the claim is won: fill, publish, widen, announce. */
    method PublishClaim(me: nat, entry: Entry, i: nat, id: nat)
      requires Valid() && EntryOk(entry) && PcOf(Now(), me) == Claimed(entry, i, id)
      modifies this
      ensures Valid() && old(run) <= run && old(actor) <= actor && |Now().slots| == old(|Now().slots|)
      ensures PcOf(Now(), me).Out? && TouchesOnly(run, actor, old(|run|), me, {i})
      ensures Added(run, actor, old(|run|), me, i, entry)
    {
      WriteSlotPayload(me, entry, i, id);
      ghost var filled, filledBy := run, actor;
      ShowEntry(me, entry, i, id);
      TouchesJoin(filled, filledBy, run, actor, old(|run|), me, {i}, {i});
      AddedSince(run, actor, |filled|, old(|run|), me, i, entry);
    }

    /** Publish the type of a filled slot and announce it. */
    method ShowEntry(me: nat, entry: Entry, i: nat, id: nat)
      requires Valid() && EntryOk(entry) && PcOf(Now(), me) == Filled(entry, i, id)
      modifies this
      ensures Valid() && old(run) <= run && old(actor) <= actor && |Now().slots| == old(|Now().slots|)
      ensures PcOf(Now(), me).Out? && TouchesOnly(run, actor, old(|run|), me, {i})
      ensures Added(run, actor, old(|run|), me, i, entry)
    {
      PublishType(me, entry, i, id);
      ghost var shown, shownBy := run, actor;
      Announce(me, entry, i, id);
      TouchesJoin(shown, shownBy, run, actor, old(|run|), me, {i}, {i});
      PublishedLasts(shown, shownBy, run, actor, |shown| - 1, me, i, entry);
      PublishedShows(run, actor, |shown| - 1, me, i, entry);
    }

    /** The store that makes a filled slot visible. */
    method PublishType(me: nat, entry: Entry, i: nat, id: nat)
      requires Valid() && EntryOk(entry) && PcOf(Now(), me) == Filled(entry, i, id)
      modifies this
      ensures Valid() && old(run) < run && old(actor) <= actor && |Now().slots| == old(|Now().slots|)
      ensures PcOf(Now(), me) == Shown(entry, i, id) && TouchesOnly(run, actor, old(|run|), me, {i})
      ensures PublishedBy(run, actor, |run| - 1, me, i, entry)
    {
      Interfere(me);
      StillMine(run, actor, me);
      Do(me, MoveAt(Now(), me, Shown(entry, i, id), i,
                    Now().slots[i].(state := Published(entry.kind))).(publishes := Now().publishes + 1));
    }

    /** Widen the bound, and only then bump the generation. */
    method Announce(me: nat, entry: Entry, i: nat, id: nat)
      requires Valid() && PcOf(Now(), me) == Shown(entry, i, id)
      modifies this
      ensures Valid() && old(run) < run && old(actor) <= actor && |Now().slots| == old(|Now().slots|)
      ensures PcOf(Now(), me).Out? && TouchesOnly(run, actor, old(|run|), me, {i})
      ensures AnnouncedBy(run, actor, |run| - 1, me)
    {
      WidenHighWater(me, entry, i, id);
      ghost var widened, widenedBy := run, actor;
      Interfere(me);
      RunInv(run, actor, |run| - 1);
      assert OwnerOk(Now(), me);
      var slot := Now().slots[i];
      ghost var mid, midBy := run, actor;
      Do(me, MoveAt(Now(), me, Out, i,
                    if slot.claim == id then slot.(bumpedAt := Now().generation + 1) else slot).(
               generation := Now().generation + 1));
      TouchesStep(widened, widenedBy, mid, midBy, Now(), old(|run|), me, {}, {i});
    }

    /** try_add_once: the index returned was published with the whole entry and announced
        after, and no other slot was touched; -1 means every slot was seen occupied. */
    method TryAddOnce(me: nat, entry: Entry) returns (idx: int)
      requires Valid() && EntryOk(entry) && PcOf(Now(), me).Out?
      modifies this
      ensures Valid() && old(run) <= run && old(actor) <= actor && |Now().slots| == old(|Now().slots|)
      ensures PcOf(Now(), me).Out? && -1 <= idx < |Now().slots|
      ensures TouchesOnly(run, actor, old(|run|), me, SlotOf(idx))
      ensures idx >= 0 ==> Added(run, actor, old(|run|), me, idx, entry)
      ensures idx == -1 ==> forall i | 0 <= i < |Now().slots| :: OccupiedSince(run, old(|run|), i)
    {
      Do(me, Move(Now(), me, Adding(entry, 0)));
      var i := 0;
      while i < |Now().slots|
        invariant Valid() && old(run) < run && old(actor) <= actor && |Now().slots| == old(|Now().slots|)
        invariant i <= |Now().slots| && PcOf(Now(), me) == Adding(entry, i)
        invariant TouchesOnly(run, actor, old(|run|), me, {})
        invariant forall j | 0 <= j < i :: OccupiedSince(run, old(|run|), j)
        decreases |Now().slots| - i
      {
        ghost var before, beforeBy := run, actor;
        var won := AddAt(me, entry, i);
        TouchesJoin(before, beforeBy, run, actor, old(|run|), me, {}, if won then {i} else {});
        if won {
          AddedSince(run, actor, |before|, old(|run|), me, i, entry);
          return i;
        }
        OccupiedLasts(before, run, old(|run|), i);
        assert OccupiedSince(run, |before|, i);
        i := i + 1;
      }
      ghost var before, beforeBy := run, actor;
      Do(me, Move(Now(), me, Out));
      TouchesStep(before, beforeBy, before, beforeBy, Now(), old(|run|), me, {}, {});
      OccupiedLasts(before, run, old(|run|), i);
      idx := -1;
    }

    /** One turn of the loop. */
    method AddAt(me: nat, entry: Entry, i: nat) returns (won: bool)
      requires Valid() && EntryOk(entry) && PcOf(Now(), me) == Adding(entry, i) && i < |Now().slots|
      modifies this
      ensures Valid() && old(run) < run && old(actor) <= actor && |Now().slots| == old(|Now().slots|)
      ensures TouchesOnly(run, actor, old(|run|), me, if won then {i} else {})
      ensures won ==> PcOf(Now(), me).Out? && Added(run, actor, old(|run|), me, i, entry)
      ensures !won ==> PcOf(Now(), me) == Adding(entry, i + 1) && OccupiedSince(run, old(|run|), i)
    {
      var id;
      won, id := TryClaim(me, entry, i);
      if won {
        ghost var claimed, claimedBy := run, actor;
        PublishClaim(me, entry, i, id);
        TouchesJoin(claimed, claimedBy, run, actor, old(|run|), me, {i}, {i});
        AddedSince(run, actor, |claimed|, old(|run|), me, i, entry);
      }
    }

    /** The claim CAS on slot i: won, or the slot was seen occupied. */
    method TryClaim(me: nat, entry: Entry, i: nat) returns (won: bool, id: nat)
      requires Valid() && EntryOk(entry) && PcOf(Now(), me) == Adding(entry, i) && i < |Now().slots|
      modifies this
      ensures Valid() && old(run) < run && old(actor) <= actor && |Now().slots| == old(|Now().slots|)
      ensures PcOf(Now(), me) == if won then Claimed(entry, i, id) else Adding(entry, i + 1)
      ensures TouchesOnly(run, actor, old(|run|), me, if won then {i} else {})
      ensures !won ==> OccupiedSince(run, old(|run|), i)
    {
      Interfere(me);
      if Now().slots[i].state == Empty {
        id := Now().nextClaim;
        Do(me, MoveAt(Now(), me, Claimed(entry, i, id), i,
                      Now().slots[i].(state := Reserved, claimant := me, claim := id, bumpedAt := 0)).(
                 nextClaim := id + 1));
        return true, id;
      }
      Do(me, Move(Now(), me, Adding(entry, i + 1)));
      assert run[|run| - 1].slots[i].state != Empty;
      won, id := false, 0;
    }

    /** The removal CAS of a published slot and, for its winner, teardown_slot and the bump. */
    method RemoveAt(me: nat, i: nat, kind: Kind) returns (won: bool)
      requires Valid() && i < |Now().slots| && PcOf(Now(), me) == RemoveLoaded(i, kind)
      modifies this
      ensures Valid() && old(run) <= run && old(actor) <= actor && |Now().slots| == old(|Now().slots|)
      ensures PcOf(Now(), me).Out? && TouchesOnly(run, actor, old(|run|), me, if won then {i} else {})
      ensures won ==> exists u, v :: old(|run|) <= u < v && RemovedBy(run, actor, u, me, i)
                                     && RemovalAnnouncedBy(run, actor, v, me)
      ensures !won ==> EmptiedOrRetyped(run, old(|run|) - 1, i, kind)
    {
      Interfere(me);
      var slot := Now().slots[i];
      if slot.state != Published(kind) {
        ghost var before := run;
        Do(me, Move(Now(), me, Out));
        assert run[|before| - 1].slots[i] == slot;
        return false;
      }
      Do(me, MoveAt(Now(), me, Tearing(i), i,
                    slot.(state := Empty, tearer := Some(me), claim := 0, bumpedAt := 0)).(
               removals := Now().removals + 1));
      ghost var emptied, emptiedBy := run, actor;
      assert TouchesOnly(emptied, emptiedBy, old(|run|), me, {i});
      assert RemovedBy(emptied, emptiedBy, |emptied| - 1, me, i);
      TeardownSlot(me, i);
      TouchesJoin(emptied, emptiedBy, run, actor, old(|run|), me, {i}, {i});
      RemovedLasts(emptied, emptiedBy, run, actor, |emptied| - 1, me, i);
      won := true;
    }

    /** The winner's teardown_slot and its bump. */
    method TeardownSlot(me: nat, i: nat)
      requires Valid() && i < |Now().slots| && PcOf(Now(), me) == Tearing(i)
      modifies this
      ensures Valid() && old(run) <= run && old(actor) <= actor && |Now().slots| == old(|Now().slots|)
      ensures PcOf(Now(), me).Out? && TouchesOnly(run, actor, old(|run|), me, {i})
      ensures RemovalAnnouncedBy(run, actor, |run| - 1, me)
    {
      Interfere(me);
      var slot := Now().slots[i];
      Do(me, MoveAt(Now(), me, Zeroing(i, 0), i, slot.(seqWord := slot.seqWord + 1, fill := None)));
      ghost var begun, begunBy := run, actor;
      assert TouchesOnly(begun, begunBy, old(|run|), me, {i});
      ZeroPayload(me, i);
      TouchesJoin(begun, begunBy, run, actor, old(|run|), me, {i}, {i});
      begun, begunBy := run, actor;
      EndTeardown(me, i);
      TouchesJoin(begun, begunBy, run, actor, old(|run|), me, {i}, {i});
    }

    /** The closing seq word, then the generation bump. */
    method EndTeardown(me: nat, i: nat)
      requires Valid() && i < |Now().slots| && PcOf(Now(), me) == Zeroing(i, ENTRY_CELLS)
      modifies this
      ensures Valid() && old(run) < run && old(actor) <= actor && |Now().slots| == old(|Now().slots|)
      ensures PcOf(Now(), me).Out? && TouchesOnly(run, actor, old(|run|), me, {i})
      ensures RemovalAnnouncedBy(run, actor, |run| - 1, me)
    {
      Interfere(me);
      SlotSize(run, actor, i);
      var slot := Now().slots[i];
      Do(me, MoveAt(Now(), me, Torn(i), i, slot.(seqWord := slot.seqWord + 1, tearer := None)));
      ghost var torn, tornBy := run, actor;
      assert TouchesOnly(torn, tornBy, old(|run|), me, {i});
      Interfere(me);
      ghost var mid, midBy := run, actor;
      Do(me, Move(Now(), me, Out).(generation := Now().generation + 1));
      TouchesStep(torn, tornBy, mid, midBy, Now(), old(|run|), me, {i}, {i});
    }

    /** The memset of the payload, byte by byte. */
    method ZeroPayload(me: nat, i: nat)
      requires Valid() && i < |Now().slots| && PcOf(Now(), me) == Zeroing(i, 0)
      modifies this
      ensures Valid() && old(run) <= run && old(actor) <= actor && |Now().slots| == old(|Now().slots|)
      ensures PcOf(Now(), me) == Zeroing(i, ENTRY_CELLS) && TouchesOnly(run, actor, old(|run|), me, {i})
    {
      var done := 0;
      while done < ENTRY_CELLS
        invariant Valid() && old(run) <= run && old(actor) <= actor && |Now().slots| == old(|Now().slots|)
        invariant done <= ENTRY_CELLS && PcOf(Now(), me) == Zeroing(i, done)
        invariant TouchesOnly(run, actor, old(|run|), me, {i})
      {
        ghost var before, beforeBy := run, actor;
        Interfere(me);
        SlotSize(run, actor, i);
        var slot := Now().slots[i];
        ghost var mid, midBy := run, actor;
        Do(me, MoveAt(Now(), me, Zeroing(i, done + 1), i, slot.(cells := slot.cells[done := 0])));
        TouchesStep(before, beforeBy, mid, midBy, Now(), old(|run|), me, {i}, {i});
        done := done + 1;
      }
    }

    /** The removal of slot i by a CAS that expects the given type. */
    method RemoveExpecting(me: nat, i: nat, kind: Kind) returns (won: bool)
      requires Valid() && i < |Now().slots| && PcOf(Now(), me).Out?
      modifies this
      ensures Valid() && old(run) < run && old(actor) <= actor && |Now().slots| == old(|Now().slots|)
      ensures PcOf(Now(), me).Out? && TouchesOnly(run, actor, old(|run|), me, if won then {i} else {})
      ensures actor[old(|run|)] == me && PcOf(run[old(|run|)], me) == RemoveLoaded(i, kind)
      ensures won ==> exists u, v :: old(|run|) < u < v && RemovedBy(run, actor, u, me, i)
                                     && RemovalAnnouncedBy(run, actor, v, me)
      ensures !won ==> EmptiedOrRetyped(run, old(|run|), i, kind)
    {
      Do(me, Move(Now(), me, RemoveLoaded(i, kind)));
      ghost var loaded, loadedBy := run, actor;
      assert TouchesOnly(loaded, loadedBy, old(|run|), me, {});
      won := RemoveAt(me, i, kind);
      TouchesJoin(loaded, loadedBy, run, actor, old(|run|), me, {}, if won then {i} else {});
      assert run[|loaded| - 1] == loaded[|loaded| - 1] && actor[|loaded| - 1] == loadedBy[|loaded| - 1];
    }

    /** registry_remove.  `stray`: the load found the slot RESERVED by somebody's add.  Every
        entry ever shown there, the caller's included, has then been removed already. */
    method RegistryRemove(me: nat, index: int) returns (won: bool, stray: bool)
      requires Valid() && PcOf(Now(), me).Out?
      modifies this
      ensures Valid() && old(run) <= run && old(actor) <= actor && PcOf(Now(), me).Out?
      ensures |Now().slots| == old(|Now().slots|)
      ensures !(0 <= index < old(|Now().slots|)) ==> !won && !stray && run == old(run)
      ensures won ==> exists u, v :: old(|run|) <= u < v && RemovedBy(run, actor, u, me, index)
                                     && RemovalAnnouncedBy(run, actor, v, me)
      ensures TouchesOnly(run, actor, old(|run|), me, if won then {index} else {})
      ensures !won && 0 <= index < |Now().slots| && old(Now()).slots[index].state.Published? ==>
                EmptiedOrRetyped(run, old(|run|) - 1, index, old(Now()).slots[index].state.kind)
      ensures stray ==> !won && 0 <= index < |Now().slots| && Now().slots[index].state == Reserved
      ensures stray ==> forall u: nat | u < |run| && index < |run[u].slots| && run[u].slots[index].state.Published? ::
                RemovedWithin(run, actor, u, |run| - 1, index)
    {
      won, stray := false, false;
      if index < 0 || index >= |Now().slots| {
        return;
      }
      Interfere(me);
      var st := Now().slots[index].state;
      assert st == run[|run| - 1].slots[index].state;
      if st == Empty {
        return;
      }
      if st == Reserved {
        PublishedBefore(run, actor, index);
        stray := true;
        return;
      }
      ghost var mid, midBy := run, actor;
      won := RemoveExpecting(me, index, st.kind);
      TouchesJoin(mid, midBy, run, actor, old(|run|), me, {}, if won then {index} else {});
      assert run[|mid| - 1] == mid[|mid| - 1];
    }

    /** registry_cleanup_stale, `gone` being the pids that no longer exist.  The slots reaped
        are the only ones touched, each was vetted, and no dead entry sits through the sweep. */
    method CleanupStale(me: nat, gone: set<Cells>) returns (ghost reaped: set<nat>)
      requires Valid() && PcOf(Now(), me).Out?
      modifies this
      ensures Valid() && old(run) <= run && old(actor) <= actor && |Now().slots| == old(|Now().slots|)
      ensures PcOf(Now(), me).Out? && TouchesOnly(run, actor, old(|run|), me, reaped)
      ensures Guarded(run, actor) ==> SweptTo(run, actor, old(|run|) - 1, me, Scope(old(Now())), gone, reaped)
      ensures Guarded(run, actor) ==> forall i | 0 <= i < old(|Now().slots|) && old(Now()).slots[i].bumpedAt > 0 ::
                NoneLeft(run, old(|run|) - 1, i, gone)
    {
      ghost var a := |run| - 1;
      RunInv(run, actor, a);
      Interfere(me);
      RunGrows(run, actor, a, |run| - 1);
      var bound := Scope(Now());
      reaped := {};
      for i := 0 to bound
        invariant Valid() && old(run) <= run && old(actor) <= actor && |Now().slots| == old(|Now().slots|)
        invariant PcOf(Now(), me).Out? && TouchesOnly(run, actor, old(|run|), me, reaped)
        invariant Guarded(run, actor) ==> SweptTo(run, actor, a, me, i, gone, reaped)
      {
        reaped := SweepOn(me, i, gone, a, reaped);
      }
    }

    /** One turn of the sweep's loop. */
    method SweepOn(me: nat, i: nat, gone: set<Cells>, ghost a: nat, ghost had: set<nat>) returns (ghost reaped: set<nat>)
      requires Valid() && PcOf(Now(), me).Out? && i < |Now().slots| && a < |run|
      requires TouchesOnly(run, actor, a + 1, me, had)
      requires Guarded(run, actor) ==> SweptTo(run, actor, a, me, i, gone, had)
      modifies this
      ensures Valid() && old(run) <= run && old(actor) <= actor && |Now().slots| == old(|Now().slots|)
      ensures PcOf(Now(), me).Out? && TouchesOnly(run, actor, a + 1, me, reaped)
      ensures Guarded(run, actor) ==> SweptTo(run, actor, a, me, i + 1, gone, reaped)
    {
      ghost var before, beforeBy := run, actor;
      var won := SweepSlot(me, i, gone);
      reaped := if won then had + {i} else had;
      TouchesJoin(before, beforeBy, run, actor, a + 1, me, had, if won then {i} else {});
      assert reaped == had + if won then {i} else {};
      SweepTurn(before, beforeBy, run, actor, a, me, i, gone, had, won);
    }

    /** One slot of the sweep: snapshot, pid probe, seq re-check, CAS. */
    method SweepSlot(me: nat, i: nat, gone: set<Cells>) returns (won: bool)
      requires Valid() && PcOf(Now(), me).Out? && i < |Now().slots|
      modifies this
      ensures Valid() && old(run) <= run && old(actor) <= actor && |Now().slots| == old(|Now().slots|)
      ensures PcOf(Now(), me).Out? && TouchesOnly(run, actor, old(|run|), me, if won then {i} else {})
      ensures Guarded(run, actor) && won ==> RightlyReaped(run, actor, old(|run|) - 1, me, i, gone)
      ensures Guarded(run, actor) ==> NoneLeft(run, old(|run|) - 1, i, gone)
    {
      ghost var a := |run| - 1;
      Interfere(me);
      if Now().slots[i].state == Empty {
        EmptyLeavesNone(run, a, i, gone);
        return false;
      }
      var start := |run| - 1;
      Interfere(me);
      var found, word, t := SnapshotSlot(run, actor, start, i);
      if found.None? || NoPid(found.value.payload) || Pid(found.value) !in gone {
        if Guarded(run, actor) { NoneVetted(run, a, start, t, i, gone, found); }
        return false;
      }
      RunGrows(run, actor, t, |run| - 1);
      won := ReapVetted(me, i, gone, a, start, t, found.value, word);
    }

    /** The seq re-check of a snapshot whose process is gone, then the CAS. */
    method ReapVetted(me: nat, i: nat, gone: set<Cells>, ghost a: nat, ghost start: nat, ghost t: nat, e: Entry, word: nat)
      returns (won: bool)
      requires Valid() && PcOf(Now(), me).Out? && a <= start <= t < |run| && i < |run[t].slots| == |Now().slots|
      requires |e.payload| == ENTRY_CELLS && !NoPid(e.payload) && Pid(e) in gone
      requires word % 2 == 0 && run[t].slots[i].seqWord == word
      requires Guarded(run, actor) ==> run[t].slots[i].fill == Some(e) && Shows(run, start, t, i, e)
      requires Guarded(run, actor) ==> forall f :: Undisturbed(run, start, t, i, f) ==> f == e
      modifies this
      ensures Valid() && old(run) <= run && old(actor) <= actor && |Now().slots| == old(|Now().slots|)
      ensures PcOf(Now(), me).Out? && TouchesOnly(run, actor, old(|run|), me, if won then {i} else {})
      ensures Guarded(run, actor) && won ==> RightlyReaped(run, actor, a, me, i, gone)
      ensures Guarded(run, actor) ==> NoneLeft(run, a, i, gone)
    {
      ghost var seen, seenBy := run, actor;
      Interfere(me);
      if Now().slots[i].seqWord != word {
        WordMoved(seen, run, a, start, t, i, gone, word);
        return false;
      }
      ghost var checked := run;
      won := RemoveExpecting(me, i, e.kind);
      ReapOutcome(seen, seenBy, checked, run, actor, a, start, t, me, i, gone, e, won);
    }

    /** registry_add: when no slot is empty, sweep once and try again. */
    method RegistryAdd(me: nat, entry: Entry, gone: set<Cells>) returns (idx: int, ghost swept: set<nat>)
      requires Valid() && EntryOk(entry) && PcOf(Now(), me).Out?
      modifies this
      ensures Valid() && old(run) <= run && old(actor) <= actor && |Now().slots| == old(|Now().slots|)
      ensures PcOf(Now(), me).Out? && -1 <= idx < |Now().slots|
      ensures AddOutcome(run, actor, old(|run|), me, idx, entry, gone, swept)
    {
      idx := TryAddOnce(me, entry);
      swept := {};
      if idx >= 0 {
        FirstTry(run, actor, old(|run|), me, idx, entry, gone);
        return;
      }
      ghost var b := |run|;
      swept := SweepFor(me, old(|run|), gone);
      idx := AddSwept(me, entry, old(|run|), b, gone, swept);
    }

    /** The sweep of a thread that has touched nothing since a and seen every slot occupied. */
    method SweepFor(me: nat, ghost a: nat, gone: set<Cells>) returns (ghost swept: set<nat>)
      requires Valid() && PcOf(Now(), me).Out? && 0 < a <= |run| && TouchesOnly(run, actor, a, me, {})
      requires forall i | 0 <= i < |Now().slots| :: OccupiedSince(run, a, i)
      modifies this
      ensures Valid() && old(run) <= run && old(actor) <= actor && |Now().slots| == old(|Now().slots|)
      ensures PcOf(Now(), me).Out? && Swept(run, actor, a, old(|run|), me, gone, swept)
    {
      ghost var before, beforeBy := run, actor;
      swept := CleanupStale(me, gone);
      SweepDone(before, beforeBy, run, actor, a, me, gone, swept);
    }

    /** The second try. */
    method AddSwept(me: nat, entry: Entry, ghost a: nat, ghost b: nat, ghost gone: set<Cells>, ghost swept: set<nat>)
      returns (idx: int)
      requires Valid() && EntryOk(entry) && PcOf(Now(), me).Out? && Swept(run, actor, a, b, me, gone, swept)
      modifies this
      ensures Valid() && old(run) <= run && old(actor) <= actor && |Now().slots| == old(|Now().slots|)
      ensures PcOf(Now(), me).Out? && -1 <= idx < |Now().slots|
      ensures AddOutcome(run, actor, a, me, idx, entry, gone, swept)
    {
      ghost var before, beforeBy := run, actor;
      idx := TryAddOnce(me, entry);
      TriedAgain(before, beforeBy, run, actor, a, b, me, gone, swept, idx, entry);
    }
  }

  ghost predicate OccupiedWithin(run: seq<State>, a: nat, b: nat, i: nat) {
    exists u :: a <= u < b && u < |run| && i < |run[u].slots| && run[u].slots[i].state != Empty
  }

  /** A thread has seen every slot occupied between a and b, has then swept, and has touched
      no slot since a but those it rightly reaped. */
  ghost predicate Swept(run: seq<State>, actor: seq<nat>, a: nat, b: nat, me: nat, gone: set<Cells>, swept: set<nat>) {
    && |run| == |actor| && 0 < a <= b <= |run| && TouchesOnly(run, actor, a, me, swept)
    && (forall i | 0 <= i < |Last(run).slots| :: OccupiedWithin(run, a, b, i))
    && (Guarded(run, actor) ==> SweptTo(run, actor, b - 1, me, Scope(run[b - 1]), gone, swept))
  }

  /** What registry_add has come to since time a.  An index: the slot was published with the
      whole entry and announced; -1: every slot was seen occupied, a sweep followed, and every
      slot was seen occupied again.  Beside the slot added to only those in `swept` were
      touched, and in guarded runs each of these was rightly reaped. */
  ghost predicate AddOutcome(run: seq<State>, actor: seq<nat>, a: nat, me: nat, idx: int, entry: Entry,
                             gone: set<Cells>, swept: set<nat>)
    requires 0 < |run| == |actor| && 0 < a
  {
    && TouchesOnly(run, actor, a, me, swept + SlotOf(idx))
    && (Guarded(run, actor) ==> forall i | i in swept :: RightlyReaped(run, actor, a - 1, me, i, gone))
    && (idx >= 0 ==> Added(run, actor, a, me, idx, entry))
    && (idx == -1 ==> exists b, c :: FullTwice(run, actor, a, b, c, me, gone, swept))
  }

  /** Full before b, swept from then to c, full after c. */
  ghost predicate FullTwice(run: seq<State>, actor: seq<nat>, a: nat, b: nat, c: nat, me: nat,
                            gone: set<Cells>, swept: set<nat>)
    requires 0 < |run| == |actor|
  {
    && 0 < b <= c <= |run| && Swept(run[..c], actor[..c], a, b, me, gone, swept)
    && forall i | 0 <= i < |Last(run).slots| :: OccupiedWithin(run, c, |run|, i)
  }

  lemma FirstTry(run: seq<State>, actor: seq<nat>, a: nat, me: nat, idx: nat, entry: Entry, gone: set<Cells>)
    requires 0 < |run| == |actor| && 0 < a
    requires TouchesOnly(run, actor, a, me, SlotOf(idx)) && Added(run, actor, a, me, idx, entry)
    ensures AddOutcome(run, actor, a, me, idx, entry, gone, {})
  {
    assert {} + SlotOf(idx) == SlotOf(idx);
  }

  lemma SweepDone(run: seq<State>, actor: seq<nat>, run': seq<State>, actor': seq<nat>, a: nat, me: nat,
                  gone: set<Cells>, swept: set<nat>)
    requires 0 < |run| == |actor| && run <= run' && actor <= actor' && |run'| == |actor'| && 0 < a <= |run|
    requires |Last(run').slots| == |Last(run).slots|
    requires TouchesOnly(run, actor, a, me, {}) && TouchesOnly(run', actor', |run|, me, swept)
    requires forall i | 0 <= i < |Last(run).slots| :: OccupiedSince(run, a, i)
    requires Guarded(run', actor') ==> SweptTo(run', actor', |run| - 1, me, Scope(Last(run)), gone, swept)
    ensures Swept(run', actor', a, |run|, me, gone, swept)
  {
    TouchesJoin(run, actor, run', actor', a, me, {}, swept);
    assert {} + swept == swept;
    forall i | 0 <= i < |Last(run').slots|
      ensures OccupiedWithin(run', a, |run|, i)
    {
      assert OccupiedSince(run, a, i);
      var u :| a <= u < |run| && i < |run[u].slots| && run[u].slots[i].state != Empty;
      assert run'[u] == run[u];
    }
  }

  /** A try after the sweep, seen from a time before it. */
  lemma TriedAgain(run: seq<State>, actor: seq<nat>, run': seq<State>, actor': seq<nat>, a: nat, b: nat, me: nat,
                   gone: set<Cells>, swept: set<nat>, idx: int, entry: Entry)
    requires 0 < |run| == |actor| && run <= run' && actor <= actor' && |run'| == |actor'| && -1 <= idx
    requires Swept(run, actor, a, b, me, gone, swept) && TouchesOnly(run', actor', |run|, me, SlotOf(idx))
    requires idx >= 0 ==> Added(run', actor', |run|, me, idx, entry)
    requires idx == -1 ==> forall i | 0 <= i < |Last(run').slots| :: OccupiedSince(run', |run|, i)
    ensures AddOutcome(run', actor', a, me, idx, entry, gone, swept)
  {
    TouchesJoin(run, actor, run', actor', a, me, swept, SlotOf(idx));
    SweptLasts(run, actor, run', actor', a, b, me, gone, swept);
    if idx >= 0 {
      AddedSince(run', actor', |run|, a, me, idx, entry);
    } else {
      assert run'[..|run|] == run && actor'[..|run|] == actor;
      forall i | 0 <= i < |Last(run').slots|
        ensures OccupiedWithin(run', |run|, |run'|, i)
      {
        assert OccupiedSince(run', |run|, i);
      }
      assert FullTwice(run', actor', a, b, |run|, me, gone, swept);
    }
  }

  lemma SweptLasts(run: seq<State>, actor: seq<nat>, run': seq<State>, actor': seq<nat>, a: nat, b: nat, me: nat,
                   gone: set<Cells>, swept: set<nat>)
    requires run <= run' && actor <= actor' && |run'| == |actor'| && Swept(run, actor, a, b, me, gone, swept)
    ensures Guarded(run', actor') ==> forall i | i in swept :: RightlyReaped(run', actor', a - 1, me, i, gone)
  {
    if Guarded(run', actor') {
      GuardedBefore(run, actor, run', actor');
      forall i | i in swept
        ensures RightlyReaped(run', actor', a - 1, me, i, gone)
      {
        ReapingLasts(run, actor, run', actor', b - 1, a - 1, me, i, gone);
      }
    }
  }

  /** A RESERVED slot stands for none of the entries it ever showed. */
  lemma PublishedBefore(run: seq<State>, actor: seq<nat>, i: nat)
    requires Run(run, actor) && i < |Last(run).slots| && Last(run).slots[i].state == Reserved
    ensures forall u: nat | u < |run| && i < |run[u].slots| && run[u].slots[i].state.Published? ::
              RemovedWithin(run, actor, u, |run| - 1, i)
  {
    forall u: nat | u < |run| && i < |run[u].slots| && run[u].slots[i].state.Published?
      ensures RemovedWithin(run, actor, u, |run| - 1, i)
    {
      ClaimChangedIff(run, actor, u, |run| - 1, i);
    }
  }

  /** The slot an index returned by an add stands for. */
  function SlotOf(idx: int): set<nat> { if idx >= 0 then {idx} else {} }

  /** The slot a thread is working on. */
  function At(pc: Pc): set<nat> { if pc.Out? then {} else {pc.i} }

  predicate SameExcept(s: State, s': State, at: set<nat>) {
    |s.slots| == |s'.slots| && forall j | 0 <= j < |s.slots| && j !in at :: s'.slots[j] == s.slots[j]
  }

  /** No step of `me` from `a` on changed a slot outside `at`. */
  predicate TouchesOnly(run: seq<State>, actor: seq<nat>, a: nat, me: nat, at: set<nat>) {
    |run| == |actor| && forall u | 0 < u < |run| && a <= u && actor[u] == me :: TouchedAt(run, u, at)
  }

  predicate TouchedAt(run: seq<State>, u: nat, at: set<nat>)
    requires 0 < u < |run|
  {
    SameExcept(run[u - 1], run[u], at)
  }

  lemma TouchesJoin(run: seq<State>, actor: seq<nat>, run': seq<State>, actor': seq<nat>, a: nat, me: nat,
                    at: set<nat>, at': set<nat>)
    requires run <= run' && actor <= actor' && |run| > 0
    requires TouchesOnly(run, actor, a, me, at) && TouchesOnly(run', actor', |run|, me, at')
    ensures TouchesOnly(run', actor', a, me, at + at')
  {
    forall u | 0 < u < |run'| && a <= u && actor'[u] == me
      ensures TouchedAt(run', u, at + at')
    {
      if u < |run| {
        assert run'[u] == run[u] && run'[u - 1] == run[u - 1] && actor[u] == me;
      }
    }
  }

  /** Interference followed by one step of `me`. */
  lemma TouchesStep(run: seq<State>, actor: seq<nat>, mid: seq<State>, midBy: seq<nat>, s: State, a: nat, me: nat,
                    at: set<nat>, at': set<nat>)
    requires run <= mid && actor <= midBy && 0 < |run| == |actor| && |mid| == |midBy|
    requires TouchesOnly(run, actor, a, me, at) && SameExcept(Last(mid), s, at')
    requires forall u | |run| <= u < |mid| :: midBy[u] != me
    ensures TouchesOnly(mid + [s], midBy + [me], a, me, at + at')
  {
    TouchesJoin(run, actor, mid + [s], midBy + [me], a, me, at, at');
  }

  lemma RemovedLasts(run: seq<State>, actor: seq<nat>, run': seq<State>, actor': seq<nat>, u: nat, me: nat, i: nat)
    requires run <= run' && actor <= actor' && |run'| == |actor'| && RemovedBy(run, actor, u, me, i)
    ensures RemovedBy(run', actor', u, me, i)
  {
    assert run'[u] == run[u] && run'[u - 1] == run[u - 1] && actor'[u] == actor[u];
  }

  /** RACING REMOVERS: between two won removals of one slot lies a publication of it. */
  lemma {:induction false} OneWinner(run: seq<State>, actor: seq<nat>, u: nat, v: nat, t: nat, r: nat, i: nat)
    requires Run(run, actor) && u < v < |run|
    requires RemovedBy(run, actor, u, t, i) && RemovedBy(run, actor, v, r, i)
    ensures exists w, me, e :: u < w < v && PublishedBy(run, actor, w, me, i, e)
  {
    PublicationBetween(run, actor, u, v - 1, i);
  }

  lemma {:induction false} PublicationBetween(run: seq<State>, actor: seq<nat>, a: nat, b: nat, i: nat)
    requires Run(run, actor) && a <= b < |run| && i < |run[a].slots| && i < |run[b].slots|
    requires run[a].slots[i].state == Empty && run[b].slots[i].state.Published?
    ensures exists w, me, e :: a < w <= b && PublishedBy(run, actor, w, me, i, e)
    decreases b
  {
    RunGrows(run, actor, a, b - 1);
    assert Linked(run, actor, b);
    if run[b - 1].slots[i].state.Published? {
      PublicationBetween(run, actor, a, b - 1, i);
    } else {
      assert PublishedBy(run, actor, b, actor[b], i, PcOf(run[b - 1], actor[b]).entry);
    }
  }

  lemma PublishedLasts(run: seq<State>, actor: seq<nat>, run': seq<State>, actor': seq<nat>,
                       u: nat, me: nat, i: nat, entry: Entry)
    requires run <= run' && actor <= actor' && |run'| == |actor'| && PublishedBy(run, actor, u, me, i, entry)
    ensures PublishedBy(run', actor', u, me, i, entry)
  {
    assert run'[u] == run[u] && run'[u - 1] == run[u - 1] && actor'[u] == actor[u];
  }

  /** What an owner may rely on while others step: the slot is still there and still its own. */
  lemma StillMine(run: seq<State>, actor: seq<nat>, me: nat)
    requires Run(run, actor)
    ensures InClaim(PcOf(Last(run), me)) ==>
              var i := PcOf(Last(run), me).i;
              && i < |Last(run).slots| && |Last(run).slots[i].cells| == ENTRY_CELLS
              && Last(run).slots[i].state == Reserved && Last(run).slots[i].claimant == me
  {
    RunInv(run, actor, |run| - 1);
    assert OwnerOk(Last(run), me);
    if InClaim(PcOf(Last(run), me)) { assert SlotOwned(Last(run), PcOf(Last(run), me).i); }
  }

  lemma OccupiedLasts(run: seq<State>, run': seq<State>, a: nat, n: nat)
    requires run <= run' && forall j | 0 <= j < n :: OccupiedSince(run, a, j)
    ensures forall j | 0 <= j < n :: OccupiedSince(run', a, j)
  {
    forall j | 0 <= j < n
      ensures OccupiedSince(run', a, j)
    {
      assert OccupiedSince(run, a, j);
      var u :| a <= u < |run| && j < |run[u].slots| && run[u].slots[j].state != Empty;
      assert run'[u] == run[u];
    }
  }
}
