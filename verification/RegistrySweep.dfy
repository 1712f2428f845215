/** What registry_cleanup_stale may claim about the slots it reaps and those it leaves. */
module RegistrySweep {
  import opened Wire
  import opened Schedule
  import opened RegistryProtocol
  import opened RegistryRead

  /** Some time since `a`, slot i did not show the type the remover had loaded. */
  ghost predicate EmptiedOrRetyped(run: seq<State>, a: int, i: nat, kind: Kind) {
    exists u :: a <= u < |run| && 0 <= u && i < |run[u].slots| && run[u].slots[i].state != Published(kind)
  }

  function Pid(e: Entry): Cells
    requires |e.payload| == ENTRY_CELLS
  {
    e.payload[..PID_BYTES]
  }

  /** No entry of a dead process stayed in slot i from time a to the present. */
  ghost predicate NoneLeft(run: seq<State>, a: nat, i: nat, gone: set<Cells>)
    requires |run| > 0
  {
    forall e :: EntryOk(e) && Pid(e) in gone ==> !Undisturbed(run, a, |run| - 1, i, e)
  }

  /** Somebody won a removal of slot i after s, up to b. */
  ghost predicate RemovedWithin(run: seq<State>, actor: seq<nat>, s: nat, b: nat, i: nat) {
    exists w, other :: s < w <= b && RemovedBy(run, actor, w, other, i)
  }

  /** At time s the slot showed e, whose process is gone; at time c `me` found the slot's seq
      as it was when it snapshot e; and at u it removed what the slot stood for.  That was the
      claim of e, and then e itself, exactly if nobody had removed e since s. */
  ghost predicate Reaping(run: seq<State>, actor: seq<nat>, a: nat, me: nat, i: nat, gone: set<Cells>,
                          s: nat, c: nat, u: nat, e: Entry) {
    && |run| == |actor| && a <= s <= c && c + 1 < u < |run| && i < |run[c].slots| && i < |run[u - 1].slots|
    && EntryOk(e) && Pid(e) in gone && ShowsAt(run, s, i, e)
    && actor[c + 1] == me && PcOf(run[c + 1], me) == RemoveLoaded(i, e.kind) && run[c].slots[i].fill == Some(e)
    && RemovedBy(run, actor, u, me, i)
    && (run[u - 1].slots[i].claim != run[s].slots[i].claim <==> RemovedWithin(run, actor, s, u - 1, i))
    && (run[u - 1].slots[i].claim == run[s].slots[i].claim ==> run[u - 1].slots[i].fill == Some(e))
  }

  ghost predicate RightlyReaped(run: seq<State>, actor: seq<nat>, a: nat, me: nat, i: nat, gone: set<Cells>) {
    exists s, c, u, e :: Reaping(run, actor, a, me, i, gone, s, c, u, e)
  }

  /** The slots a sweep that starts now goes through. */
  function Scope(s: State): nat {
    if s.highWater < |s.slots| then s.highWater else |s.slots|
  }

  ghost predicate SweptTo(run: seq<State>, actor: seq<nat>, a: nat, me: nat, n: nat, gone: set<Cells>, reaped: set<nat>)
    requires |run| > 0
  {
    && (forall i | i in reaped :: RightlyReaped(run, actor, a, me, i, gone))
    && (forall i | 0 <= i < n :: NoneLeft(run, a, i, gone))
  }

  /** What was undisturbed to the end was so in any earlier part of the history. */
  lemma UndisturbedBefore(run: seq<State>, run': seq<State>, a: nat, b: nat, a': nat, b': nat, i: nat, e: Entry)
    requires run <= run' && Undisturbed(run', a, b, i, e) && a <= a' <= b' <= b && b' < |run|
    ensures Undisturbed(run, a', b', i, e)
  {
    assert ShowsAt(run', a', i, e);
    forall t | a' <= t <= b'
      ensures ShowsAt(run, t, i, e) && run[t].slots[i].seqWord == run[a'].slots[i].seqWord
    {
      assert ShowsAt(run', t, i, e) && run'[t] == run[t];
    }
  }

  lemma NoneVetted(run: seq<State>, a: nat, start: nat, t: nat, i: nat, gone: set<Cells>, found: Option<Entry>)
    requires a <= start <= t < |run|
    requires forall e :: Undisturbed(run, start, t, i, e) ==> found == Some(e)
    requires found.Some? ==> |found.value.payload| == ENTRY_CELLS && (NoPid(found.value.payload) || Pid(found.value) !in gone)
    ensures NoneLeft(run, a, i, gone)
  {
    forall e | EntryOk(e) && Pid(e) in gone
      ensures !Undisturbed(run, a, |run| - 1, i, e)
    {
      if Undisturbed(run, a, |run| - 1, i, e) { UndisturbedBefore(run, run, a, |run| - 1, start, t, i, e); }
    }
  }

  /** A slot left undisturbed keeps the word its snapshot saw. */
  lemma WordMoved(run: seq<State>, run': seq<State>, a: nat, start: nat, t: nat, i: nat, gone: set<Cells>, word: nat)
    requires run <= run' && a <= start <= t < |run| && i < |run[t].slots| && run[t].slots[i].seqWord == word
    requires i < |Last(run').slots| && Last(run').slots[i].seqWord != word
    ensures NoneLeft(run', a, i, gone)
  {
    forall e | EntryOk(e) && Pid(e) in gone
      ensures !Undisturbed(run', a, |run'| - 1, i, e)
    {
      assert i < |run'[a].slots| && ShowsAt(run', t, i, e) && run'[t].slots[i].seqWord == run'[a].slots[i].seqWord ==>
               Last(run').slots[i].seqWord != run'[a].slots[i].seqWord;
      assert ShowsAt(run', |run'| - 1, i, e) ==> Last(run') == run'[|run'| - 1];
    }
  }

  /** A vetted slot: what its removal, or its loss, is worth. */
  lemma Vetted(seen: seq<State>, run: seq<State>, actor: seq<nat>, a: nat, start: nat, t: nat, c: nat,
               me: nat, i: nat, gone: set<Cells>, e: Entry) returns (s: nat)
    requires Run(run, actor) && Guarded(run, actor) && seen <= run && a <= start <= t < |seen| && t <= c && c + 1 < |run|
    requires Shows(seen, start, t, i, e) && EntryOk(e) && Pid(e) in gone
    requires i < |run[t].slots| && i < |run[c].slots| && run[t].slots[i].fill == Some(e)
    requires run[c].slots[i].seqWord == run[t].slots[i].seqWord && run[t].slots[i].seqWord % 2 == 0
    requires actor[c + 1] == me && PcOf(run[c + 1], me) == RemoveLoaded(i, e.kind)
    ensures forall u | c + 1 < u && RemovedBy(run, actor, u, me, i) :: Reaping(run, actor, a, me, i, gone, s, c, u, e)
  {
    RunGrows(run, actor, t, c);
    Steady(run, actor, t, c, c, i);
    s :| start <= s <= t && ShowsAt(seen, s, i, e);
    assert ShowsAt(run, s, i, e) by { assert run[s] == seen[s]; }
    forall u | c + 1 < u && RemovedBy(run, actor, u, me, i)
      ensures Reaping(run, actor, a, me, i, gone, s, c, u, e)
    {
      WhatIsRemoved(run, actor, s, u - 1, i, e);
    }
  }

  lemma WhatIsRemoved(run: seq<State>, actor: seq<nat>, s: nat, b: nat, i: nat, e: Entry)
    requires Run(run, actor) && Guarded(run, actor) && s <= b < |run| && ShowsAt(run, s, i, e) && i < |run[b].slots|
    ensures run[b].slots[i].claim != run[s].slots[i].claim <==> RemovedWithin(run, actor, s, b, i)
    ensures run[b].slots[i].claim == run[s].slots[i].claim ==> run[b].slots[i].fill == Some(e)
  {
    ClaimChangedIff(run, actor, s, b, i);
    SameUnlessRemoved(run, actor, s, b, i);
  }

  lemma EmptyLeavesNone(run: seq<State>, a: nat, i: nat, gone: set<Cells>)
    requires a < |run| && i < |Last(run).slots| && Last(run).slots[i].state == Empty
    ensures NoneLeft(run, a, i, gone)
  {
    forall e | EntryOk(e) && Pid(e) in gone
      ensures !Undisturbed(run, a, |run| - 1, i, e)
    {
      assert !ShowsAt(run, |run| - 1, i, e);
    }
  }

  /** Either way the vetted entry does not sit through the sweep. */
  lemma VettedOutcome(seen: seq<State>, run: seq<State>, actor: seq<nat>, a: nat, start: nat, t: nat, c: nat,
                      me: nat, i: nat, gone: set<Cells>, e: Entry, s: nat, won: bool)
    requires seen <= run && a <= start <= t < |seen| && t <= c && c + 1 < |run| == |actor|
    requires forall f :: Undisturbed(seen, start, t, i, f) ==> f == e
    requires forall u | c + 1 < u && RemovedBy(run, actor, u, me, i) :: Reaping(run, actor, a, me, i, gone, s, c, u, e)
    requires won ==> exists u: nat :: c + 1 < u && RemovedBy(run, actor, u, me, i)
    requires !won ==> EmptiedOrRetyped(run, c + 1, i, e.kind)
    ensures won ==> RightlyReaped(run, actor, a, me, i, gone)
    ensures NoneLeft(run, a, i, gone)
  {
    if won {
      var u: nat :| c + 1 < u && RemovedBy(run, actor, u, me, i);
      assert Reaping(run, actor, a, me, i, gone, s, c, u, e);
      VettedIsGone(seen, run, a, start, t, i, gone, e, u);
    } else {
      var u: nat :| c + 1 <= u < |run| && i < |run[u].slots| && run[u].slots[i].state != Published(e.kind);
      VettedIsGone(seen, run, a, start, t, i, gone, e, u);
    }
  }

  /** From the snapshot at t, through the check that ended `checked`, to the outcome. */
  lemma ReapOutcome(seen: seq<State>, seenBy: seq<nat>, checked: seq<State>, run: seq<State>, actor: seq<nat>,
                    a: nat, start: nat, t: nat, me: nat, i: nat, gone: set<Cells>, e: Entry, won: bool)
    requires Run(run, actor) && seen <= checked < run && seenBy <= actor && |seen| == |seenBy|
    requires a <= start <= t < |seen| && |e.payload| == ENTRY_CELLS && Pid(e) in gone
    requires i < |seen[t].slots| && i < |Last(checked).slots| && seen[t].slots[i].seqWord % 2 == 0
    requires Last(checked).slots[i].seqWord == seen[t].slots[i].seqWord
    requires Guarded(seen, seenBy) ==>
               seen[t].slots[i].fill == Some(e) && Shows(seen, start, t, i, e)
               && forall f :: Undisturbed(seen, start, t, i, f) ==> f == e
    requires actor[|checked|] == me && PcOf(run[|checked|], me) == RemoveLoaded(i, e.kind)
    requires won ==> exists u: nat :: |checked| < u && RemovedBy(run, actor, u, me, i)
    requires !won ==> EmptiedOrRetyped(run, |checked|, i, e.kind)
    ensures Guarded(run, actor) ==> (won ==> RightlyReaped(run, actor, a, me, i, gone)) && NoneLeft(run, a, i, gone)
  {
    if Guarded(run, actor) {
      GuardedBefore(seen, seenBy, run, actor);
      var c := |checked| - 1;
      assert run[t] == seen[t] && run[c] == checked[c];
      ShownIsOk(seen, start, t, i, e);
      var s := Vetted(seen, run, actor, a, start, t, c, me, i, gone, e);
      VettedOutcome(seen, run, actor, a, start, t, c, me, i, gone, e, s, won);
    }
  }

  lemma ShownIsOk(run: seq<State>, a: nat, b: nat, i: nat, e: Entry)
    requires Shows(run, a, b, i, e)
    ensures EntryOk(e)
  {}

  lemma VettedIsGone(seen: seq<State>, run: seq<State>, a: nat, start: nat, t: nat, i: nat, gone: set<Cells>, e: Entry, u: nat)
    requires seen <= run && a <= start <= t < |seen| && a <= u < |run|
    requires forall f :: Undisturbed(seen, start, t, i, f) ==> f == e
    requires i < |run[u].slots| && run[u].slots[i].state != Published(e.kind)
    ensures NoneLeft(run, a, i, gone)
  {
    assert !ShowsAt(run, u, i, e);
    forall f | EntryOk(f) && Pid(f) in gone
      ensures !Undisturbed(run, a, |run| - 1, i, f)
    {
      if Undisturbed(run, a, |run| - 1, i, f) {
        UndisturbedBefore(seen, run, a, |run| - 1, start, t, i, f);
      }
    }
  }

  lemma NoneLeftLasts(run: seq<State>, run': seq<State>, a: nat, a': nat, i: nat, gone: set<Cells>)
    requires run <= run' && a' <= a < |run| && NoneLeft(run, a, i, gone)
    ensures NoneLeft(run', a', i, gone)
  {
    forall e | EntryOk(e) && Pid(e) in gone
      ensures !Undisturbed(run', a', |run'| - 1, i, e)
    {
      if Undisturbed(run', a', |run'| - 1, i, e) {
        UndisturbedBefore(run, run', a', |run'| - 1, a, |run| - 1, i, e);
      }
    }
  }

  lemma ReapingLasts(run: seq<State>, actor: seq<nat>, run': seq<State>, actor': seq<nat>, a: nat, a': nat,
                     me: nat, i: nat, gone: set<Cells>)
    requires run <= run' && actor <= actor' && |run'| == |actor'| && a' <= a && RightlyReaped(run, actor, a, me, i, gone)
    ensures RightlyReaped(run', actor', a', me, i, gone)
  {
    var s: nat, c: nat, u: nat, e :| Reaping(run, actor, a, me, i, gone, s, c, u, e);
    assert run'[s] == run[s] && ShowsAt(run', s, i, e);
    assert run'[c] == run[c] && run'[c + 1] == run[c + 1] && run'[u] == run[u] && run'[u - 1] == run[u - 1];
    RemovedWithinLasts(run, actor, run', actor', s, u - 1, i);
    assert Reaping(run', actor', a', me, i, gone, s, c, u, e);
  }

  lemma RemovedWithinLasts(run: seq<State>, actor: seq<nat>, run': seq<State>, actor': seq<nat>, s: nat, b: nat, i: nat)
    requires run <= run' && actor <= actor' && |run| == |actor| && |run'| == |actor'| && b < |run|
    ensures RemovedWithin(run, actor, s, b, i) <==> RemovedWithin(run', actor', s, b, i)
  {
    forall w, other | s < w <= b
      ensures RemovedBy(run, actor, w, other, i) <==> RemovedBy(run', actor', w, other, i)
    {
      assert run'[w] == run[w] && run'[w - 1] == run[w - 1];
    }
  }

  lemma SweepExtends(run: seq<State>, actor: seq<nat>, run': seq<State>, actor': seq<nat>, a: nat, me: nat, n: nat,
                     gone: set<Cells>, reaped: set<nat>, won: bool)
    requires 0 < |run| == |actor| && run <= run' && actor <= actor' && |run'| == |actor'| && a < |run|
    requires SweptTo(run, actor, a, me, n, gone, reaped)
    requires won ==> RightlyReaped(run', actor', |run| - 1, me, n, gone)
    requires NoneLeft(run', |run| - 1, n, gone)
    ensures SweptTo(run', actor', a, me, n + 1, gone, if won then reaped + {n} else reaped)
  {
    ReapedMore(run, actor, run', actor', a, me, n, gone, reaped, won);
    NoneLeftMore(run, run', a, n, gone);
  }

  lemma ReapedMore(run: seq<State>, actor: seq<nat>, run': seq<State>, actor': seq<nat>, a: nat, me: nat, n: nat,
                   gone: set<Cells>, reaped: set<nat>, won: bool)
    requires 0 < |run| == |actor| && run <= run' && actor <= actor' && |run'| == |actor'| && a < |run|
    requires forall i | i in reaped :: RightlyReaped(run, actor, a, me, i, gone)
    requires won ==> RightlyReaped(run', actor', |run| - 1, me, n, gone)
    ensures forall i | i in (if won then reaped + {n} else reaped) :: RightlyReaped(run', actor', a, me, i, gone)
  {
    ReapedLast(run, actor, run', actor', a, me, gone, reaped);
    if won { ReapingLasts(run', actor', run', actor', |run| - 1, a, me, n, gone); }
  }

  lemma NoneLeftMore(run: seq<State>, run': seq<State>, a: nat, n: nat, gone: set<Cells>)
    requires 0 < |run| && run <= run' && a < |run| && NoneLeft(run', |run| - 1, n, gone)
    requires forall i | 0 <= i < n :: NoneLeft(run, a, i, gone)
    ensures forall i | 0 <= i < n + 1 :: NoneLeft(run', a, i, gone)
  {
    NoneLeftBelow(run, run', a, n, gone);
    NoneLeftLasts(run', run', |run| - 1, a, n, gone);
  }

  lemma ReapedLast(run: seq<State>, actor: seq<nat>, run': seq<State>, actor': seq<nat>, a: nat, me: nat,
                   gone: set<Cells>, reaped: set<nat>)
    requires 0 < |run| == |actor| && run <= run' && actor <= actor' && |run'| == |actor'| && a < |run|
    requires forall i | i in reaped :: RightlyReaped(run, actor, a, me, i, gone)
    ensures forall i | i in reaped :: RightlyReaped(run', actor', a, me, i, gone)
  {
    forall i | i in reaped
      ensures RightlyReaped(run', actor', a, me, i, gone)
    {
      ReapingLasts(run, actor, run', actor', a, a, me, i, gone);
    }
  }

  lemma NoneLeftBelow(run: seq<State>, run': seq<State>, a: nat, n: nat, gone: set<Cells>)
    requires 0 < |run| && run <= run' && a < |run|
    requires forall i | 0 <= i < n :: NoneLeft(run, a, i, gone)
    ensures forall i | 0 <= i < n :: NoneLeft(run', a, i, gone)
  {
    forall i | 0 <= i < n
      ensures NoneLeft(run', a, i, gone)
    {
      NoneLeftLasts(run, run', a, a, i, gone);
    }
  }

  lemma SweepTurn(run: seq<State>, actor: seq<nat>, run': seq<State>, actor': seq<nat>, a: nat, me: nat, n: nat,
                  gone: set<Cells>, reaped: set<nat>, won: bool)
    requires 0 < |run| == |actor| && run <= run' && actor <= actor' && |run'| == |actor'| && a < |run|
    requires Guarded(run, actor) ==> SweptTo(run, actor, a, me, n, gone, reaped)
    requires Guarded(run', actor') && won ==> RightlyReaped(run', actor', |run| - 1, me, n, gone)
    requires Guarded(run', actor') ==> NoneLeft(run', |run| - 1, n, gone)
    ensures Guarded(run', actor') ==> SweptTo(run', actor', a, me, n + 1, gone, if won then reaped + {n} else reaped)
  {
    if Guarded(run', actor') {
      GuardedBefore(run, actor, run', actor');
      SweepExtends(run, actor, run', actor', a, me, n, gone, reaped, won);
    }
  }
}
