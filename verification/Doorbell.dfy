/** ring_doorbells and rmw_wait's generation check, each access one step of
    DoorbellProtocol with other processes stepping in between. */
module Doorbell {
  import opened Schedule
  import opened DoorbellProtocol

  /** A registered doorbell stays registered and its slot is not rewritten. */
  predicate Keeps(s: State, s': State) {
    && s'.index == s.index && s'.capacity == s.capacity && s.generation <= s'.generation
    && s.mutations <= s'.mutations && s.deposits <= s'.deposits
    && (InWait(s) ==> InWait(s') && s'.bell == s.bell)
  }

  lemma {:induction false} RunKeeps(run: seq<State>, actor: seq<nat>, a: nat, b: nat)
    requires Run(run, actor) && a <= b < |run|
    ensures Keeps(run[a], run[b])
    decreases b
  {
    if a < b {
      RunKeeps(run, actor, a, b - 1);
      assert Linked(run, actor, b);
    }
  }

  ghost predicate RungSince(run: seq<State>, a: nat) {
    exists u :: a <= u < |run| && run[u].queue > 0
  }

  /** Steps of other threads neither move thread `me` nor, for the waiter, take from its queue. */
  lemma {:induction false} OthersLeaveAlone(run: seq<State>, actor: seq<nat>, a: nat, b: nat, me: nat)
    requires Run(run, actor) && a <= b < |run| && forall u | a < u <= b :: actor[u] != me
    ensures me == WAITER ==> run[b].waiter == run[a].waiter && run[b].lastSeen == run[a].lastSeen
                             && run[b].deposits - run[a].deposits == run[b].queue - run[a].queue
    ensures me != WAITER ==> PcOf(run[b], me) == PcOf(run[a], me)
    decreases b
  {
    if a < b {
      OthersLeaveAlone(run, actor, a, b - 1, me);
      assert Linked(run, actor, b);
    }
  }

  class GraphEvents {
    var run: seq<State>
    var actor: seq<nat>

    ghost predicate Valid()
      reads this
    {
      Run(run, actor)
    }

    function Now(): State
      requires |run| > 0
      reads this
    {
      Last(run)
    }

    constructor (s: State)
      requires Init(s)
      ensures Valid() && run == [s]
    {
      run, actor := [s], [0];
    }

    /** Any number of steps of other threads.  Callers know this contract and nothing else,
        so their proofs hold for every interleaving; OthersLeaveAlone is why `me` stays put. */
    method Interfere(me: nat)
      requires Valid() && me != WAITER
      modifies this
      ensures Valid() && old(run) <= run && old(actor) <= actor && PcOf(Now(), me) == old(PcOf(Now(), me))
    {}

    /** Steps of other threads around the waiter; the octets ever deposited stay within `limit`. */
    method InterfereWaiter(ghost limit: nat)
      requires Valid() && Now().deposits <= limit
      modifies this
      ensures Valid() && old(run) <= run && old(actor) <= actor && Now().deposits <= limit
      ensures Now().waiter == old(Now().waiter) && Now().lastSeen == old(Now().lastSeen)
      ensures Now().deposits - old(Now().deposits) == Now().queue - old(Now().queue)
    {}

    /** One atomic access of thread `me`. */
    method Do(me: nat, s: State)
      requires Valid() && Step(Now(), s, me)
      modifies this
      ensures Valid() && run == old(run) + [s] && actor == old(actor) + [me]
    {
      Append(run, actor, s, me);
      run, actor := run + [s], actor + [me];
    }

    /** The visit of the waiter's slot up to the seq load. */
    method LookAtBell(me: nat, vs: set<nat>, bound: nat) returns (s1: nat, past: bool)
      requires Valid() && me != WAITER && PcOf(Now(), me) == Ringing(vs, bound, Now().index) && Now().index < bound
      modifies this
      ensures Valid() && old(run) < run && old(actor) <= actor
      ensures PcOf(Now(), me) == if past then PastBell(old(Now()), vs, bound) else Snapped(vs, bound, s1)
      ensures old(InWait(Now())) ==> !past && s1 == old(Now().bell.seqWord)
    {
      ghost var a := |run| - 1;
      Interfere(me);
      StillRegistered(run, actor, a);
      if !Now().bell.shown {
        Do(me, Move(Now(), me, PastBell(Now(), vs, bound)));
        return 0, true;
      }
      Do(me, Move(Now(), me, Seen(vs, bound)));
      Interfere(me);
      StillRegistered(run, actor, a);
      s1 := Now().bell.seqWord;
      past := s1 % 2 == 1;
      Do(me, Move(Now(), me, if past then PastBell(Now(), vs, bound) else Snapped(vs, bound, s1)));
    }

    /** The type re-check, the path copy, and the seq re-check. */
    method CopyPath(me: nat, vs: set<nat>, bound: nat, s1: nat) returns (past: bool)
      requires Valid() && me != WAITER && PcOf(Now(), me) == Snapped(vs, bound, s1)
      modifies this
      ensures Valid() && old(run) < run && old(actor) <= actor
      ensures PcOf(Now(), me) == if past then PastBell(old(Now()), vs, bound) else Sending(vs, bound)
      ensures old(InWait(Now())) && s1 == old(Now().bell.seqWord) ==> !past
    {
      ghost var a := |run| - 1;
      Interfere(me);
      StillRegistered(run, actor, a);
      if !Now().bell.shown {
        Do(me, Move(Now(), me, PastBell(Now(), vs, bound)));
        return true;
      }
      Do(me, Move(Now(), me, Retyped(vs, bound, s1)));
      past := RecheckPath(me, vs, bound, s1);
    }

    method RecheckPath(me: nat, vs: set<nat>, bound: nat, s1: nat) returns (past: bool)
      requires Valid() && me != WAITER && PcOf(Now(), me) == Retyped(vs, bound, s1)
      modifies this
      ensures Valid() && old(run) < run && old(actor) <= actor
      ensures PcOf(Now(), me) == if past then PastBell(old(Now()), vs, bound) else Sending(vs, bound)
      ensures old(InWait(Now())) && s1 == old(Now().bell.seqWord) ==> !past
    {
      ghost var a := |run| - 1;
      Interfere(me);
      StillRegistered(run, actor, a);
      var path := Now().bell.pathSet;
      Do(me, Move(Now(), me, Copied(vs, bound, s1, path)));
      Interfere(me);
      StillRegistered(run, actor, a);
      past := !(Now().bell.seqWord == s1 && path);
      Do(me, Move(Now(), me, if past then PastBell(Now(), vs, bound) else Sending(vs, bound)));
    }

    /** The whole visit: a registered doorbell is never skipped. */
    method RingBell(me: nat, vs: set<nat>, bound: nat)
      requires Valid() && me != WAITER && PcOf(Now(), me) == Ringing(vs, bound, Now().index) && Now().index < bound
      modifies this
      ensures Valid() && old(run) < run && old(actor) <= actor
      ensures PcOf(Now(), me) == PastBell(old(Now()), vs, bound)
      ensures old(InWait(Now())) ==> RungSince(run, old(|run|))
    {
      ghost var a := |run| - 1;
      var s1, past := LookAtBell(me, vs, bound);
      StillRegistered(run, actor, a);
      if past { return; }
      past := CopyPath(me, vs, bound, s1);
      if past { return; }
      Interfere(me);
      StillRegistered(run, actor, a);
      var room := Now().queue < Now().capacity;
      Do(me, Move(Now(), me, PastBell(Now(), vs, bound)).(
               queue := if room then Now().queue + 1 else Now().queue,
               deposits := if room then Now().deposits + 1 else Now().deposits));
      assert run[|run| - 1].queue > 0;
    }

    /** ring_doorbells: one pass over the high-water prefix.  A doorbell registered before the
        pass has an octet queued at some time during it. */
    method RingDoorbells(me: nat)
      requires Valid() && me != WAITER && PcOf(Now(), me).Announced?
      modifies this
      ensures Valid() && old(run) < run && old(actor) <= actor && PcOf(Now(), me).Quiet?
      ensures old(InWait(Now())) ==> RungSince(run, old(|run|))
    {
      ghost var a := |run| - 1;
      var vs := PcOf(Now(), me).vs;
      Interfere(me);
      StillRegistered(run, actor, a);
      var bound := Now().highWater;
      Do(me, Move(Now(), me, Ringing(vs, bound, 0)));
      var i := 0;
      while i < bound
        invariant Valid() && old(run) < run && old(actor) <= actor && run[a] == old(Now())
        invariant i <= bound && PcOf(Now(), me) == Ringing(vs, bound, i)
        invariant InWait(run[a]) ==> run[a].index < bound && (run[a].index < i ==> RungSince(run, old(|run|)))
      {
        VisitSlot(me, vs, bound, i, a);
        i := i + 1;
      }
      ghost var before := run;
      Interfere(me);
      Do(me, Move(Now(), me, Quiet));
      if RungSince(before, old(|run|)) { RungLasts(before, run, old(|run|)); }
    }

    /** One turn of the pass that began after time a. */
    method VisitSlot(me: nat, vs: set<nat>, bound: nat, i: nat, ghost a: nat)
      requires Valid() && me != WAITER && PcOf(Now(), me) == Ringing(vs, bound, i) && i < bound && a < |run|
      requires InWait(run[a]) && run[a].index < i ==> RungSince(run, a + 1)
      modifies this
      ensures Valid() && old(run) < run && old(actor) <= actor && PcOf(Now(), me) == Ringing(vs, bound, i + 1)
      ensures InWait(run[a]) && run[a].index < i + 1 ==> RungSince(run, a + 1)
    {
      ghost var before := run;
      Interfere(me);
      StillRegistered(run, actor, a);
      if i == Now().index {
        ghost var visit := |run|;
        RingBell(me, vs, bound);
        if InWait(run[a]) {
          assert RungSince(run, visit);
        }
      } else {
        Do(me, Move(Now(), me, Ringing(vs, bound, i + 1)));
        if RungSince(before, a + 1) { RungLasts(before, run, a + 1); }
      }
    }

    /** run_generation_check: drain, then read.  Whatever was announced before the drain saw
        the doorbell empty is observed.  `limit` is the number of octets that ever arrive. */
    method RunGenerationCheck(ghost limit: nat) returns (changed: bool)
      requires Valid() && (Now().waiter.Returned? || (Now().waiter.Blocked? && Now().queue > 0))
      requires Now().deposits <= limit
      modifies this
      ensures Valid() && old(run) < run && old(actor) <= actor && Now().waiter.Blocked?
      ensures exists d :: old(|run|) <= d < |run| && run[d].queue == 0 && run[d].waiter.Drained?
                          && forall v | v in run[d].mutations :: v <= Now().lastSeen
      ensures old(Now().lastSeen) <= Now().lastSeen && changed == (Now().lastSeen != old(Now().lastSeen))
    {
      Do(WAITER, Now().(waiter := Draining));
      InterfereWaiter(limit);
      while Now().queue > 0
        invariant Valid() && old(run) < run && old(actor) <= actor && Now().waiter.Draining?
        invariant Now().deposits <= limit && Now().lastSeen == old(Now().lastSeen)
        decreases Now().queue + (limit - Now().deposits)
      {
        Do(WAITER, Now().(queue := Now().queue - 1));
        InterfereWaiter(limit);
      }
      Do(WAITER, Now().(waiter := Drained));
      ghost var d := |run| - 1;
      InterfereWaiter(limit);
      RunInv(run, actor, |run| - 1);
      RunKeeps(run, actor, d, |run| - 1);
      var gen := Now().generation;
      changed := gen != Now().lastSeen;
      Do(WAITER, Now().(waiter := Blocked, lastSeen := gen));
      assert run[d].queue == 0 && run[d].waiter.Drained?;
    }
  }

  lemma StillRegistered(run: seq<State>, actor: seq<nat>, a: nat)
    requires Run(run, actor) && a < |run|
    ensures BellInv(Last(run)) && Keeps(run[a], Last(run))
  {
    RunInv(run, actor, |run| - 1);
    RunKeeps(run, actor, a, |run| - 1);
  }

  lemma RungLasts(run: seq<State>, run': seq<State>, a: nat)
    requires run <= run' && RungSince(run, a)
    ensures RungSince(run', a)
  {
    var u :| a <= u < |run| && run[u].queue > 0;
    assert run'[u] == run[u];
  }
}
