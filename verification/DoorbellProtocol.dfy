/** The wakeup protocol between registry mutators and one process blocked in rmw_wait.

    A mutator bumps the generation and only then rings every registered doorbell.  The
    waiter registers its doorbell, drains it, only then reads the generation, and blocks.
    Steps interleave arbitrarily; a run may stop anywhere, as when a mutator is killed.

    The waiter's doorbell slot is tracked access by access; visits to other slots never
    reach its socket. */
module DoorbellProtocol {
  import opened Schedule

  /** The waiter's slot as ring_doorbells sees it. */
  datatype BellSlot = BellSlot(seqWord: nat, shown: bool, pathSet: bool)

  datatype WaiterPc =
    | Absent | Claimed | Filling | Filled | Shown | Widened  // registry_add of the doorbell
    | Returned                                           // between two calls of rmw_wait
    | Draining | Drained | Blocked

  /** `vs`: the generations this mutator has announced since its last ring pass. */
  datatype MutatorPc =
    | Quiet
    | Announced(vs: set<nat>)
    | Ringing(vs: set<nat>, bound: nat, i: nat)
    | Seen(vs: set<nat>, bound: nat)                     // the waiter's slot showed a doorbell
    | Snapped(vs: set<nat>, bound: nat, s1: nat)
    | Retyped(vs: set<nat>, bound: nat, s1: nat)
    | Copied(vs: set<nat>, bound: nat, s1: nat, path: bool)
    | Sending(vs: set<nat>, bound: nat)

  /** `mutations`: the generation each non-doorbell mutation was announced with. */
  datatype State = State(
    generation: nat, highWater: nat, index: nat, bell: BellSlot,
    queue: nat, capacity: nat, deposits: nat,
    waiter: WaiterPc, lastSeen: nat,
    mutators: map<nat, MutatorPc>, mutations: set<nat>)

  const WAITER := 0

  predicate Init(s: State) {
    && s.bell == BellSlot(0, false, false) && s.queue == 0 && s.capacity > 0 && s.deposits == 0
    && s.waiter == Absent && s.lastSeen <= s.generation && s.mutators == map[] && s.mutations == {}
  }

  function PcOf(s: State, t: nat): MutatorPc { if t in s.mutators then s.mutators[t] else Quiet }

  // ----- The waiter -----

  predicate Register(s: State, s': State) {
    || (s.waiter.Absent? && s' == s.(waiter := Claimed))
    || (s.waiter.Claimed? && s' == s.(waiter := Filling, bell := s.bell.(seqWord := s.bell.seqWord + 1)))
    || (s.waiter.Filling?
        && s' == s.(waiter := Filled, bell := s.bell.(seqWord := s.bell.seqWord + 1, pathSet := true)))
    || (s.waiter.Filled? && s' == s.(waiter := Shown, bell := s.bell.(shown := true)))
    || (s.waiter.Shown?
        && s' == s.(waiter := Widened, highWater := if s.highWater > s.index then s.highWater else s.index + 1))
    || (s.waiter.Widened? && s' == s.(waiter := Returned, generation := s.generation + 1))
  }

  /** A new call of rmw_wait, or a wake by the doorbell inside one. */
  predicate BeginCheck(s: State, s': State) {
    && (s.waiter.Returned? || (s.waiter.Blocked? && s.queue > 0))
    && s' == s.(waiter := Draining)
  }

  predicate Recv(s: State, s': State) {
    s.waiter.Draining? && s.queue > 0 && s' == s.(queue := s.queue - 1)
  }

  predicate DrainEnds(s: State, s': State) {
    s.waiter.Draining? && s.queue == 0 && s' == s.(waiter := Drained)
  }

  /** The generation load; a change is remembered and triggers the graph guard conditions. */
  predicate ReadGeneration(s: State, s': State) {
    s.waiter.Drained? && s' == s.(waiter := Blocked, lastSeen := s.generation)
  }

  /** Some other event or the deadline ends the wait. */
  predicate Return(s: State, s': State) {
    s.waiter.Blocked? && s' == s.(waiter := Returned)
  }

  predicate WaiterStep(s: State, s': State) {
    || Register(s, s') || BeginCheck(s, s') || Recv(s, s') || DrainEnds(s, s')
    || ReadGeneration(s, s') || Return(s, s')
  }

  // ----- Mutators -----

  function Move(s: State, t: nat, pc: MutatorPc): State { s.(mutators := s.mutators[t := pc]) }

  /** A bump; the stale sweep may bump several times before it rings. */
  predicate Bump(s: State, s': State, t: nat) {
    && (PcOf(s, t).Quiet? || PcOf(s, t).Announced?)
    && var v := s.generation + 1;
    && var vs := if PcOf(s, t).Announced? then PcOf(s, t).vs else {};
    && s' == Move(s, t, Announced(vs + {v})).(generation := v, mutations := s.mutations + {v})
  }

  /** Another process's add: it may widen the bound, and a doorbell's bump rings nobody. */
  predicate Elsewhere(s: State, s': State) {
    && s.highWater <= s'.highWater && s.generation <= s'.generation
    && s' == s.(highWater := s'.highWater, generation := s'.generation)
  }

  predicate LoadBound(s: State, s': State, t: nat) {
    PcOf(s, t).Announced? && s' == Move(s, t, Ringing(PcOf(s, t).vs, s.highWater, 0))
  }

  predicate VisitOther(s: State, s': State, t: nat) {
    var pc := PcOf(s, t);
    pc.Ringing? && pc.i < pc.bound && pc.i != s.index && s' == Move(s, t, Ringing(pc.vs, pc.bound, pc.i + 1))
  }

  predicate Finish(s: State, s': State, t: nat) {
    PcOf(s, t).Ringing? && PcOf(s, t).i >= PcOf(s, t).bound && s' == Move(s, t, Quiet)
  }

  function PastBell(s: State, vs: set<nat>, bound: nat): MutatorPc { Ringing(vs, bound, s.index + 1) }

  /** The visit of the waiter's slot: type, seq, type again, path, seq again, send. */
  predicate VisitBell(s: State, s': State, t: nat) {
    match PcOf(s, t)
    case Ringing(vs, bound, i) =>
      i == s.index < bound
      && s' == Move(s, t, if s.bell.shown then Seen(vs, bound) else PastBell(s, vs, bound))
    case Seen(vs, bound) =>
      s' == Move(s, t, if s.bell.seqWord % 2 == 0 then Snapped(vs, bound, s.bell.seqWord) else PastBell(s, vs, bound))
    case Snapped(vs, bound, s1) =>
      s' == Move(s, t, if s.bell.shown then Retyped(vs, bound, s1) else PastBell(s, vs, bound))
    case Retyped(vs, bound, s1) =>
      s' == Move(s, t, Copied(vs, bound, s1, s.bell.pathSet))
    case Copied(vs, bound, s1, path) =>
      s' == Move(s, t, if s.bell.seqWord == s1 && path then Sending(vs, bound) else PastBell(s, vs, bound))
    case Sending(vs, bound) =>
      // A full queue drops the octet: EAGAIN on a fresh socket means one is already queued.
      s' == Move(s, t, PastBell(s, vs, bound)).(
              queue := if s.queue < s.capacity then s.queue + 1 else s.queue,
              deposits := if s.queue < s.capacity then s.deposits + 1 else s.deposits)
    case _ => false
  }

  predicate MutatorStep(s: State, s': State, t: nat) {
    || Bump(s, s', t) || LoadBound(s, s', t) || VisitOther(s, s', t) || VisitBell(s, s', t) || Finish(s, s', t)
  }

  /** A step of thread t: WAITER, a mutator, or some other process. */
  predicate Step(s: State, s': State, t: nat) {
    if t == WAITER then WaiterStep(s, s') else MutatorStep(s, s', t) || Elsewhere(s, s')
  }

  // ----- No lost wakeup -----

  predicate InWait(s: State) { s.waiter.Returned? || s.waiter.Draining? || s.waiter.Drained? || s.waiter.Blocked? }

  /** A registered doorbell stays visible to ring passes. */
  predicate BellInv(s: State) {
    && s.capacity > 0 && s.lastSeen <= s.generation
    && (s.waiter.Absent? || s.waiter.Claimed? || s.waiter.Filled? ==> s.bell.seqWord % 2 == 0)
    && (s.waiter.Filling? ==> s.bell.seqWord % 2 == 1)
    && (s.waiter.Filled? || s.waiter.Shown? || s.waiter.Widened? ==> s.bell.pathSet && s.bell.seqWord % 2 == 0)
    && (s.waiter.Shown? || s.waiter.Widened? ==> s.bell.shown)
    && (s.waiter.Widened? ==> s.index < s.highWater)
    && (InWait(s) ==> s.bell.shown && s.bell.seqWord % 2 == 0 && s.bell.pathSet && s.index < s.highWater)
    && (forall v | v in s.mutations :: v <= s.generation)
  }

  /** This mutator announced v and has yet to reach the waiter's slot, or is inside a visit
      of it that no rewrite of the slot has spoiled. */
  predicate StillToRing(s: State, pc: MutatorPc, v: nat) {
    match pc
    case Quiet => false
    case Announced(vs) => v in vs
    case Ringing(vs, bound, i) => v in vs && i <= s.index < bound
    case Seen(vs, bound) => v in vs
    case Snapped(vs, bound, s1) => v in vs && s1 == s.bell.seqWord
    case Retyped(vs, bound, s1) => v in vs && s1 == s.bell.seqWord
    case Copied(vs, bound, s1, path) => v in vs && s1 == s.bell.seqWord && path
    case Sending(vs, bound) => v in vs
  }

  ghost predicate RingComing(s: State, v: nat) {
    exists t :: t != WAITER && StillToRing(s, PcOf(s, t), v)
  }

  /** NO LOST WAKEUP: a waiter blocked on an empty doorbell has observed every mutation,
      except those whose mutator has bumped and will still ring it. */
  ghost predicate WakeupInv(s: State) {
    s.waiter.Blocked? && s.queue == 0 ==> forall v | v in s.mutations && v > s.lastSeen :: RingComing(s, v)
  }

  lemma BellStep(s: State, s': State, t: nat)
    requires BellInv(s) && Step(s, s', t)
    ensures BellInv(s')
  {}

  /** An unspoiled ring pass comes closer to the waiter's slot with every step, until the
      send that leaves an octet queued. */
  lemma RingAdvances(s: State, s': State, t: nat, u: nat, v: nat)
    requires BellInv(s) && MutatorStep(s, s', t) && InWait(s)
    requires StillToRing(s, PcOf(s, u), v)
    ensures StillToRing(s', PcOf(s', u), v) || s'.queue > 0
  {}

  lemma WakeupStep(s: State, s': State, t: nat)
    requires BellInv(s) && WakeupInv(s) && Step(s, s', t)
    ensures WakeupInv(s')
  {
    if t == WAITER {
      assert s'.mutations == s.mutations && forall v | v in s.mutations :: v <= s.generation;
    } else if s'.waiter.Blocked? && s'.queue == 0 {
      forall v | v in s'.mutations && v > s'.lastSeen
        ensures RingComing(s', v)
      {
        if v !in s.mutations {
          assert StillToRing(s', PcOf(s', t), v);
        } else {
          assert RingComing(s, v);
          var u :| u != WAITER && StillToRing(s, PcOf(s, u), v);
          if MutatorStep(s, s', t) {
            RingAdvances(s, s', t, u, v);
          }
          assert StillToRing(s', PcOf(s', u), v);
        }
      }
    }
  }

  ghost predicate Run(run: seq<State>, actor: seq<nat>) {
    && |run| == |actor| > 0 && Init(run[0])
    && (forall u | 0 < u < |run| :: Linked(run, actor, u))
  }

  predicate Linked(run: seq<State>, actor: seq<nat>, u: nat)
    requires 0 < u < |run| == |actor|
  {
    Step(run[u - 1], run[u], actor[u])
  }

  lemma {:induction false} RunInv(run: seq<State>, actor: seq<nat>, u: nat)
    requires Run(run, actor) && u < |run|
    ensures BellInv(run[u]) && WakeupInv(run[u])
  {
    if u > 0 {
      RunInv(run, actor, u - 1);
      assert Linked(run, actor, u);
      BellStep(run[u - 1], run[u], actor[u]);
      WakeupStep(run[u - 1], run[u], actor[u]);
    }
  }

  /** Once the mutators that announced v have finished their passes, a blocked waiter either
      has observed v or has a wakeup queued. */
  lemma NoLostWakeup(run: seq<State>, actor: seq<nat>, u: nat, v: nat)
    requires Run(run, actor) && u < |run| && run[u].waiter.Blocked? && v in run[u].mutations
    requires forall t :: PcOf(run[u], t).Quiet? || v !in PcOf(run[u], t).vs
    ensures v <= run[u].lastSeen || run[u].queue > 0
  {
    RunInv(run, actor, u);
    assert !RingComing(run[u], v);
  }

  /** A run goes on with any step of its last state. */
  lemma Append(run: seq<State>, actor: seq<nat>, s: State, t: nat)
    requires Run(run, actor) && Step(Last(run), s, t)
    ensures Run(run + [s], actor + [t])
  {
    var run', actor' := run + [s], actor + [t];
    forall u | 0 < u < |run'|
      ensures Linked(run', actor', u)
    {
      if u < |run| { assert Linked(run, actor, u); }
    }
  }
}
