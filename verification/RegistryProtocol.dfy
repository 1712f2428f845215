/** The lock-free registry: any number of adders and removers, one atomic access per step.

    registry_add claims an EMPTY slot by CAS, fills it under the slot's seqlock, publishes
    its type, widens the high-water bound and bumps the generation.  registry_remove and the
    stale sweep empty a published slot by CAS, zero it under the same seqlock and bump.

    A removal CASes a published type only: registry_remove is called by the holder of the
    index, and the sweep takes its expected value from a snapshot. */
module RegistryProtocol {
  import opened Wire
  import opened Schedule

  datatype Kind = Node | Publisher | Subscription | Service | Client | Doorbell

  /** RegistryEntry: `payload` is every byte from pid to qos_depth. */
  datatype Entry = Entry(kind: Kind, payload: Cells)

  const ENTRY_CELLS := 1160
  const PID_BYTES := 4

  predicate NoPid(payload: Cells) {
    |payload| >= PID_BYTES && payload[..PID_BYTES] == [0, 0, 0, 0]
  }

  predicate EntryOk(e: Entry) {
    |e.payload| == ENTRY_CELLS && !NoPid(e.payload)
  }

  datatype SlotState = Empty | Reserved | Published(kind: Kind)

  /** A slot, and its history: the last winner of a claim and of a removal whose teardown
      is still under way, the claim the slot stands for (0 when none), the entry its last
      completed fill stored, and the generation that announced the claim (0 until then). */
  datatype Slot = Slot(seqWord: nat, state: SlotState, cells: Cells,
                       claimant: nat, tearer: Option<nat>, claim: nat, fill: Option<Entry>, bumpedAt: nat)

  datatype Pc =
    | Out
    | Adding(entry: Entry, i: nat)                      // about to CAS slot i
    | Claimed(entry: Entry, i: nat, id: nat)
    | Filling(entry: Entry, i: nat, id: nat, done: nat)
    | Filled(entry: Entry, i: nat, id: nat)
    | Shown(entry: Entry, i: nat, id: nat)              // type published
    | Widening(entry: Entry, i: nat, id: nat, cur: nat) // in the CAS-max loop
    | Widened(entry: Entry, i: nat, id: nat)
    | RemoveLoaded(i: nat, kind: Kind)
    | Tearing(i: nat)                                   // removal CAS won
    | Zeroing(i: nat, done: nat)
    | Torn(i: nat)

  datatype State = State(
    slots: seq<Slot>, highWater: nat, generation: nat, threads: map<nat, Pc>,
    nextClaim: nat, publishes: nat, removals: nat)

  predicate Init(s: State) {
    && s.highWater == 0 && s.generation == 0 && s.threads == map[]
    && s.nextClaim == 1 && s.publishes == 0 && s.removals == 0
    && forall i | 0 <= i < |s.slots| ::
         |s.slots[i].cells| == ENTRY_CELLS && s.slots[i] == Slot(0, Empty, s.slots[i].cells, 0, None, 0, None, 0)
  }

  function PcOf(s: State, t: nat): Pc { if t in s.threads then s.threads[t] else Out }

  function Move(s: State, t: nat, pc: Pc): State { s.(threads := s.threads[t := pc]) }

  /** Thread t moves on, having written slot i. */
  function MoveAt(s: State, t: nat, pc: Pc, i: nat, slot: Slot): State
    requires i < |s.slots|
  {
    s.(threads := s.threads[t := pc], slots := s.slots[i := slot])
  }

  // ----- registry_add -----

  predicate StartAdd(s: State, s': State, t: nat) {
    && PcOf(s, t).Out? && PcOf(s', t).Adding? && PcOf(s', t).i == 0 && EntryOk(PcOf(s', t).entry)
    && s' == Move(s, t, PcOf(s', t))
  }

  predicate ClaimFails(s: State, s': State, t: nat) {
    var pc := PcOf(s, t);
    && pc.Adding? && pc.i < |s.slots| && s.slots[pc.i].state != Empty
    && s' == Move(s, t, Adding(pc.entry, pc.i + 1))
  }

  predicate AddGivesUp(s: State, s': State, t: nat) {
    PcOf(s, t).Adding? && PcOf(s, t).i >= |s.slots| && s' == Move(s, t, Out)
  }

  predicate Claim(s: State, s': State, t: nat) {
    var pc := PcOf(s, t);
    && pc.Adding? && pc.i < |s.slots| && s.slots[pc.i].state == Empty
    && s' == MoveAt(s, t, Claimed(pc.entry, pc.i, s.nextClaim), pc.i,
                    s.slots[pc.i].(state := Reserved, claimant := t, claim := s.nextClaim, bumpedAt := 0)).(
                nextClaim := s.nextClaim + 1)
  }

  predicate BeginFill(s: State, s': State, t: nat) {
    var pc := PcOf(s, t);
    && pc.Claimed? && pc.i < |s.slots|
    && s' == MoveAt(s, t, Filling(pc.entry, pc.i, pc.id, 0), pc.i,
                    s.slots[pc.i].(seqWord := s.slots[pc.i].seqWord + 1, fill := None))
  }

  predicate FillCell(s: State, s': State, t: nat) {
    var pc := PcOf(s, t);
    && pc.Filling? && pc.i < |s.slots| && pc.done < |pc.entry.payload| && pc.done < |s.slots[pc.i].cells|
    && s' == MoveAt(s, t, Filling(pc.entry, pc.i, pc.id, pc.done + 1), pc.i,
                    s.slots[pc.i].(cells := s.slots[pc.i].cells[pc.done := pc.entry.payload[pc.done]]))
  }

  predicate EndFill(s: State, s': State, t: nat) {
    var pc := PcOf(s, t);
    && pc.Filling? && pc.i < |s.slots| && pc.done == |pc.entry.payload|
    && s' == MoveAt(s, t, Filled(pc.entry, pc.i, pc.id), pc.i,
                    s.slots[pc.i].(seqWord := s.slots[pc.i].seqWord + 1, fill := Some(pc.entry)))
  }

  predicate Publish(s: State, s': State, t: nat) {
    var pc := PcOf(s, t);
    && pc.Filled? && pc.i < |s.slots|
    && s' == MoveAt(s, t, Shown(pc.entry, pc.i, pc.id), pc.i,
                    s.slots[pc.i].(state := Published(pc.entry.kind))).(publishes := s.publishes + 1)
  }

  predicate LoadHighWater(s: State, s': State, t: nat) {
    var pc := PcOf(s, t);
    pc.Shown? && s' == Move(s, t, Widening(pc.entry, pc.i, pc.id, s.highWater))
  }

  /** One turn of the CAS-max loop; compare_exchange_weak may fail for no reason. */
  predicate WidenTurn(s: State, s': State, t: nat) {
    var pc := PcOf(s, t);
    && pc.Widening?
    && (|| (pc.cur >= pc.i + 1 && s' == Move(s, t, Widened(pc.entry, pc.i, pc.id)))
        || (pc.cur < pc.i + 1 && s.highWater == pc.cur
            && s' == Move(s, t, Widened(pc.entry, pc.i, pc.id)).(highWater := pc.i + 1))
        || (pc.cur < pc.i + 1 && s' == Move(s, t, Widening(pc.entry, pc.i, pc.id, s.highWater))))
  }

  predicate Bump(s: State, s': State, t: nat) {
    var pc := PcOf(s, t);
    && pc.Widened? && pc.i < |s.slots|
    && s' == MoveAt(s, t, Out, pc.i,
                    if s.slots[pc.i].claim == pc.id then s.slots[pc.i].(bumpedAt := s.generation + 1)
                    else s.slots[pc.i]).(generation := s.generation + 1)
  }

  // ----- registry_remove and the reclaim of registry_cleanup_stale -----

  /** The value the CAS will expect: a load of the state, or what a snapshot showed. */
  predicate RemoveLoad(s: State, s': State, t: nat) {
    var pc' := PcOf(s', t);
    PcOf(s, t).Out? && pc'.RemoveLoaded? && pc'.i < |s.slots| && s' == Move(s, t, pc')
  }

  predicate RemoveCas(s: State, s': State, t: nat) {
    var pc := PcOf(s, t);
    && pc.RemoveLoaded? && pc.i < |s.slots|
    && s' == if s.slots[pc.i].state == Published(pc.kind)
             then MoveAt(s, t, Tearing(pc.i), pc.i,
                         s.slots[pc.i].(state := Empty, tearer := Some(t), claim := 0, bumpedAt := 0)).(
                    removals := s.removals + 1)
             else Move(s, t, Out)
  }

  predicate BeginZero(s: State, s': State, t: nat) {
    var pc := PcOf(s, t);
    && pc.Tearing? && pc.i < |s.slots|
    && s' == MoveAt(s, t, Zeroing(pc.i, 0), pc.i,
                    s.slots[pc.i].(seqWord := s.slots[pc.i].seqWord + 1, fill := None))
  }

  predicate ZeroCell(s: State, s': State, t: nat) {
    var pc := PcOf(s, t);
    && pc.Zeroing? && pc.i < |s.slots| && pc.done < |s.slots[pc.i].cells|
    && s' == MoveAt(s, t, Zeroing(pc.i, pc.done + 1), pc.i,
                    s.slots[pc.i].(cells := s.slots[pc.i].cells[pc.done := 0]))
  }

  predicate EndZero(s: State, s': State, t: nat) {
    var pc := PcOf(s, t);
    && pc.Zeroing? && pc.i < |s.slots| && pc.done == |s.slots[pc.i].cells|
    && s' == MoveAt(s, t, Torn(pc.i), pc.i, s.slots[pc.i].(seqWord := s.slots[pc.i].seqWord + 1, tearer := None))
  }

  predicate BumpRemoved(s: State, s': State, t: nat) {
    PcOf(s, t).Torn? && s' == Move(s, t, Out).(generation := s.generation + 1)
  }

  predicate AddStep(s: State, s': State, t: nat) {
    || StartAdd(s, s', t) || ClaimFails(s, s', t) || AddGivesUp(s, s', t) || Claim(s, s', t)
    || BeginFill(s, s', t) || FillCell(s, s', t) || EndFill(s, s', t) || Publish(s, s', t)
    || LoadHighWater(s, s', t) || WidenTurn(s, s', t) || Bump(s, s', t)
  }

  predicate RemoveStep(s: State, s': State, t: nat) {
    || RemoveLoad(s, s', t) || RemoveCas(s, s', t) || BeginZero(s, s', t) || ZeroCell(s, s', t)
    || EndZero(s, s', t) || BumpRemoved(s, s', t)
  }

  predicate Step(s: State, s': State, t: nat) {
    AddStep(s, s', t) || RemoveStep(s, s', t)
  }

  predicate TearingAt(pc: Pc, i: nat) {
    (pc.Tearing? && pc.i == i) || (pc.Zeroing? && pc.i == i)
  }

  /** The explicit guard: no fill starts while the slot's previous teardown is in flight.
      The source does not enforce it: the state is emptied before the payload is zeroed. */
  ghost predicate FillsClear(s: State, s': State, t: nat) {
    BeginFill(s, s', t) ==> forall u :: !TearingAt(PcOf(s, u), PcOf(s, t).i)
  }

  // ----- Runs -----

  /** actor[u] took the step from run[u - 1] to run[u]. */
  ghost predicate Run(run: seq<State>, actor: seq<nat>) {
    && |run| == |actor| > 0 && Init(run[0])
    && (forall u | 0 < u < |run| :: Linked(run, actor, u))
  }

  predicate Linked(run: seq<State>, actor: seq<nat>, u: nat)
    requires 0 < u < |run| == |actor|
  {
    Step(run[u - 1], run[u], actor[u])
  }

  /** No fill of the run overlaps a teardown of the same slot. */
  ghost predicate Guarded(run: seq<State>, actor: seq<nat>)
    requires |run| == |actor|
  {
    forall u | 0 < u < |run| :: ClearAt(run, actor, u)
  }

  ghost predicate ClearAt(run: seq<State>, actor: seq<nat>, u: nat)
    requires 0 < u < |run| == |actor|
  {
    FillsClear(run[u - 1], run[u], actor[u])
  }

  /** One step changes the acting thread and at most the slot that thread is working on. */
  lemma StepShape(s: State, s': State, t: nat)
    requires Step(s, s', t)
    ensures s'.threads == s.threads[t := PcOf(s', t)] && |s'.slots| == |s.slots|
    ensures s'.slots == s.slots
            || (!PcOf(s, t).Out? && PcOf(s, t).i < |s.slots|
                && s'.slots == s.slots[PcOf(s, t).i := s'.slots[PcOf(s, t).i]])
  {}

  // ----- High water and generation -----

  predicate WideningInv(s: State) {
    && (forall t | t in s.threads ::
          && (s.threads[t].Widening? ==> s.threads[t].cur <= s.highWater)
          && (s.threads[t].Widened? ==> s.threads[t].i < s.highWater))
    && (forall i | 0 <= i < |s.slots| && s.slots[i].bumpedAt > 0 ::
          i < s.highWater && s.slots[i].bumpedAt <= s.generation)
  }

  lemma WideningStep(s: State, s': State, t: nat)
    requires WideningInv(s) && Step(s, s', t)
    ensures WideningInv(s') && s.highWater <= s'.highWater && s.generation <= s'.generation
  {
    if AddStep(s, s', t) {
      AddKeepsWidening(s, s', t);
    } else {
      RemoveKeepsWidening(s, s', t);
    }
  }

  lemma AddKeepsWidening(s: State, s': State, t: nat)
    requires WideningInv(s) && AddStep(s, s', t)
    ensures WideningInv(s') && s.highWater <= s'.highWater && s.generation <= s'.generation
  {
    assert PcOf(s, t).Widened? ==> t in s.threads;
  }

  lemma RemoveKeepsWidening(s: State, s': State, t: nat)
    requires WideningInv(s) && RemoveStep(s, s', t)
    ensures WideningInv(s') && s.highWater <= s'.highWater && s.generation <= s'.generation
  {}

  // ----- Claim exclusivity -----

  predicate InClaim(pc: Pc) { pc.Claimed? || pc.Filling? || pc.Filled? }

  predicate AfterPublish(pc: Pc) { pc.Shown? || pc.Widening? || pc.Widened? }

  /** What owning a slot means for a thread between its claim CAS and its generation bump. */
  predicate OwnerOk(s: State, t: nat) {
    var pc := PcOf(s, t);
    && (InClaim(pc) ==>
          && pc.i < |s.slots| && s.slots[pc.i].state == Reserved && s.slots[pc.i].claimant == t
          && s.slots[pc.i].claim == pc.id > 0)
    && (AfterPublish(pc) ==>
          && pc.i < |s.slots| && 0 < pc.id < s.nextClaim
          && (s.slots[pc.i].claim == pc.id ==>
                s.slots[pc.i].state == Published(pc.entry.kind) && s.slots[pc.i].claimant == t))
  }

  predicate SlotOwned(s: State, i: nat)
    requires i < |s.slots|
  {
    var slot := s.slots[i];
    && |slot.cells| == ENTRY_CELLS && slot.claim < s.nextClaim && (slot.claim == 0 <==> slot.state == Empty)
    && (slot.state == Reserved ==> InClaim(PcOf(s, slot.claimant)) && PcOf(s, slot.claimant).i == i)
    && (slot.bumpedAt > 0 ==> slot.state.Published?)
  }

  ghost predicate ClaimInv(s: State) {
    && s.nextClaim > 0
    && (forall t :: OwnerOk(s, t))
    && (forall i | 0 <= i < |s.slots| :: SlotOwned(s, i))
  }

  lemma OwnerStep(s: State, s': State, t: nat, u: nat)
    requires ClaimInv(s) && Step(s, s', t)
    ensures OwnerOk(s', u)
  {
    if u == t {
      ActorStaysOwner(s, s', t);
    } else {
      assert OwnerOk(s, u) && OwnerOk(s, t);
      if !PcOf(s, t).Out? && PcOf(s, t).i < |s.slots| {
        assert SlotOwned(s, PcOf(s, t).i);
      }
      StepShape(s, s', t);
      assert PcOf(s', u) == PcOf(s, u);
    }
  }

  lemma ActorStaysOwner(s: State, s': State, t: nat)
    requires ClaimInv(s) && Step(s, s', t)
    ensures OwnerOk(s', t)
  {
    assert OwnerOk(s, t);
    if InClaim(PcOf(s, t)) { assert SlotOwned(s, PcOf(s, t).i); }
  }

  lemma SlotOwnedStep(s: State, s': State, t: nat, i: nat)
    requires ClaimInv(s) && Step(s, s', t) && i < |s.slots|
    ensures |s'.slots| == |s.slots| && SlotOwned(s', i)
  {
    StepShape(s, s', t);
    assert SlotOwned(s, i) && OwnerOk(s, t) && OwnerOk(s, s.slots[i].claimant);
  }

  lemma ClaimStep(s: State, s': State, t: nat)
    requires ClaimInv(s) && Step(s, s', t)
    ensures ClaimInv(s')
  {
    forall u
      ensures OwnerOk(s', u)
    {
      OwnerStep(s, s', t, u);
    }
    forall i | 0 <= i < |s'.slots|
      ensures SlotOwned(s', i)
    {
      StepShape(s, s', t);
      SlotOwnedStep(s, s', t, i);
    }
  }

  /** Thread t won the claim slot i stands for and has not returned from its add. */
  predicate AddsTo(s: State, t: nat, i: nat) {
    var pc := PcOf(s, t);
    && (InClaim(pc) || AfterPublish(pc)) && pc.i == i < |s.slots|
    && (AfterPublish(pc) ==> s.slots[i].claim == pc.id)
  }

  /** CLAIM EXCLUSIVITY within an add: from its claim CAS until its add returns, or until the
      entry is removed, a thread is the only one adding to its slot. */
  lemma OneOwner(s: State, t: nat, u: nat, i: nat)
    requires ClaimInv(s) && AddsTo(s, t, i) && AddsTo(s, u, i)
    ensures t == u && s.slots[i].state != Empty
  {
    assert OwnerOk(s, t) && OwnerOk(s, u);
  }

  /** Step u of the run wins a claim of slot i. */
  predicate ClaimedAt(run: seq<State>, actor: seq<nat>, u: nat, i: nat) {
    && 0 < u < |run| == |actor| && Claim(run[u - 1], run[u], actor[u]) && PcOf(run[u - 1], actor[u]).i == i
  }

  /** Step u of the run is `me` winning the removal of slot i. */
  predicate RemovedBy(run: seq<State>, actor: seq<nat>, u: nat, me: nat, i: nat) {
    && 0 < u < |run| == |actor| && actor[u] == me && i < |run[u].slots| == |run[u - 1].slots|
    && run[u - 1].slots[i].state.Published? && run[u].slots[i].state == Empty
  }

  // ----- Conservation -----

  /** Threads whose publish or removal is done but not yet announced. */
  predicate Pending(pc: Pc) {
    AfterPublish(pc) || pc.Tearing? || pc.Zeroing? || pc.Torn?
  }

  function PendingThreads(s: State): set<nat> {
    set t | t in s.threads && Pending(s.threads[t])
  }

  function Live(s: State): set<nat> {
    set i | 0 <= i < |s.slots| && s.slots[i].state.Published?
  }

  predicate ConservationInv(s: State) {
    && s.generation + |PendingThreads(s)| == s.publishes + s.removals
    && |Live(s)| + s.removals == s.publishes
  }

  function One(b: bool): nat { if b then 1 else 0 }

  lemma PendingMoves(s: State, s': State, t: nat)
    requires s'.threads == s.threads[t := PcOf(s', t)]
    ensures |PendingThreads(s')| + One(Pending(PcOf(s, t))) == |PendingThreads(s)| + One(Pending(PcOf(s', t)))
  {
    var rest := PendingThreads(s) - {t};
    assert PendingThreads(s) == if Pending(PcOf(s, t)) then rest + {t} else rest;
    assert PendingThreads(s') == if Pending(PcOf(s', t)) then rest + {t} else rest;
  }

  lemma LiveMoves(s: State, s': State, i: nat)
    requires i < |s.slots| == |s'.slots| && s'.slots == s.slots[i := s'.slots[i]]
    ensures |Live(s')| + One(s.slots[i].state.Published?) == |Live(s)| + One(s'.slots[i].state.Published?)
  {
    var rest := Live(s) - {i};
    assert Live(s) == if s.slots[i].state.Published? then rest + {i} else rest;
    assert Live(s') == if s'.slots[i].state.Published? then rest + {i} else rest;
  }

  /** What a step adds to the two tallies. */
  lemma TalliesMove(s: State, s': State, t: nat)
    requires Step(s, s', t) && ConservationInv(s)
    ensures var d := One(Pending(PcOf(s', t))) - One(Pending(PcOf(s, t)));
            s.generation + |PendingThreads(s')| == s.publishes + s.removals + d
    ensures s'.slots == s.slots ==> |Live(s')| + s.removals == s.publishes
    ensures s'.slots != s.slots ==>
              var i := PcOf(s, t).i;
              |Live(s')| + s.removals
                == s.publishes + One(s'.slots[i].state.Published?) - One(s.slots[i].state.Published?)
  {
    StepShape(s, s', t);
    PendingMoves(s, s', t);
    if s'.slots == s.slots {
      assert Live(s') == Live(s);
    } else {
      LiveMoves(s, s', PcOf(s, t).i);
    }
  }

  lemma AddConserves(s: State, s': State, t: nat)
    requires ClaimInv(s) && ConservationInv(s) && AddStep(s, s', t)
    ensures ConservationInv(s')
  {
    TalliesMove(s, s', t);
    if Claim(s, s', t) || Publish(s, s', t) || Bump(s, s', t) {
      assert OwnerOk(s, t);
    } else {
      UntalliedStep(s, s', t);
    }
  }

  /** The steps of an add that neither claim, publish nor announce. */
  lemma UntalliedStep(s: State, s': State, t: nat)
    requires AddStep(s, s', t) && !Claim(s, s', t) && !Publish(s, s', t) && !Bump(s, s', t)
    ensures s'.generation == s.generation && s'.publishes == s.publishes && s'.removals == s.removals
    ensures Pending(PcOf(s', t)) == Pending(PcOf(s, t))
    ensures s'.slots != s.slots ==> s'.slots[PcOf(s, t).i].state == s.slots[PcOf(s, t).i].state
  {}

  lemma RemoveConserves(s: State, s': State, t: nat)
    requires ConservationInv(s) && RemoveStep(s, s', t)
    ensures ConservationInv(s')
  {
    TalliesMove(s, s', t);
  }

  lemma ConservationStep(s: State, s': State, t: nat)
    requires ClaimInv(s) && ConservationInv(s) && Step(s, s', t)
    ensures ConservationInv(s')
  {
    if AddStep(s, s', t) { AddConserves(s, s', t); } else { RemoveConserves(s, s', t); }
  }

  lemma InitHolds(s: State)
    requires Init(s)
    ensures WideningInv(s) && ClaimInv(s) && ConservationInv(s)
  {
    assert Live(s) == {} && PendingThreads(s) == {};
  }

  /** In every reachable state, guarded or not: the generation counts completed adds and
      removals, a removal CAS is won once per publication, an announced slot lies below
      high water, and a reserved slot has exactly one owner. */
  lemma {:induction false} RunInv(run: seq<State>, actor: seq<nat>, u: nat)
    requires Run(run, actor) && u < |run|
    ensures WideningInv(run[u]) && ClaimInv(run[u]) && ConservationInv(run[u])
  {
    if u == 0 {
      InitHolds(run[0]);
    } else {
      RunInv(run, actor, u - 1);
      assert Linked(run, actor, u);
      WideningStep(run[u - 1], run[u], actor[u]);
      ClaimStep(run[u - 1], run[u], actor[u]);
      ConservationStep(run[u - 1], run[u], actor[u]);
    }
  }

  /** What never shrinks. */
  predicate Grows(s: State, s': State) {
    && s.highWater <= s'.highWater && s.generation <= s'.generation && |s.slots| == |s'.slots|
    && forall i | 0 <= i < |s.slots| :: s.slots[i].seqWord <= s'.slots[i].seqWord
  }

  lemma {:induction false} RunGrows(run: seq<State>, actor: seq<nat>, a: nat, b: nat)
    requires Run(run, actor) && a <= b < |run|
    ensures Grows(run[a], run[b])
    decreases b
  {
    if a < b {
      RunGrows(run, actor, a, b - 1);
      RunInv(run, actor, b - 1);
      assert Linked(run, actor, b);
      WideningStep(run[b - 1], run[b], actor[b]);
      WordsGrow(run[b - 1], run[b], actor[b]);
    }
  }

  lemma WordsGrow(s: State, s': State, t: nat)
    requires Step(s, s', t)
    ensures |s.slots| == |s'.slots| && forall i | 0 <= i < |s.slots| :: s.slots[i].seqWord <= s'.slots[i].seqWord
  {}

  /** A run goes on with any step of its last state. */
  lemma Append(run: seq<State>, actor: seq<nat>, s: State, t: nat)
    requires Run(run, actor) && Step(Last(run), s, t)
    ensures Run(run + [s], actor + [t])
  {
    var run', actor' := run + [s], actor + [t];
    forall u | 0 < u < |run'|
      ensures Linked(run', actor', u)
    {
      if u < |run| { assert Linked(run, actor, u); }
    }
  }

  /** CLAIM EXCLUSIVITY over whole runs: between two won claims of one slot lies a won
      removal of it. */
  lemma RemovalBetweenClaims(run: seq<State>, actor: seq<nat>, u: nat, v: nat, i: nat)
    requires Run(run, actor) && u < v < |run| && ClaimedAt(run, actor, u, i) && ClaimedAt(run, actor, v, i)
    ensures exists w, me :: u < w < v && RemovedBy(run, actor, w, me, i)
  {
    RemovalBetween(run, actor, u, v - 1, i);
  }

  lemma {:induction false} RemovalBetween(run: seq<State>, actor: seq<nat>, a: nat, b: nat, i: nat)
    requires Run(run, actor) && a <= b < |run| && i < |run[a].slots| && i < |run[b].slots|
    requires run[a].slots[i].state != Empty && run[b].slots[i].state == Empty
    ensures exists w, me :: a < w <= b && RemovedBy(run, actor, w, me, i)
    decreases b
  {
    RunGrows(run, actor, a, b - 1);
    assert Linked(run, actor, b);
    if run[b - 1].slots[i].state == Empty {
      RemovalBetween(run, actor, a, b - 1, i);
    } else {
      EmptyingIsRemoval(run[b - 1], run[b], actor[b], i);
      assert RemovedBy(run, actor, b, actor[b], i);
    }
  }

  lemma EmptyingIsRemoval(s: State, s': State, t: nat, i: nat)
    requires Step(s, s', t) && i < |s.slots| == |s'.slots|
    requires s.slots[i].state != Empty && s'.slots[i].state == Empty
    ensures s.slots[i].state.Published? && RemoveCas(s, s', t)
  {
    StepShape(s, s', t);
  }

  /** WHOSE ENTRY A SLOT SHOWS.  A published slot stands for one claim, and goes on standing
      for it until a removal is won: the claim has changed if and only if one was. */
  lemma ClaimChangedIff(run: seq<State>, actor: seq<nat>, a: nat, b: nat, i: nat)
    requires Run(run, actor) && a <= b < |run| && i < |run[a].slots| && i < |run[b].slots|
    requires run[a].slots[i].state.Published?
    ensures run[b].slots[i].claim != run[a].slots[i].claim
       <==> exists w, me :: a < w <= b && RemovedBy(run, actor, w, me, i)
    ensures run[b].slots[i].claim == run[a].slots[i].claim ==> run[b].slots[i].state == run[a].slots[i].state
  {
    RunInv(run, actor, a);
    assert SlotOwned(run[a], i);
    if w: nat, me: nat :| a < w <= b && RemovedBy(run, actor, w, me, i) {
      RunInv(run, actor, w);
      assert SlotOwned(run[w], i);
      ClaimsAdvance(run, actor, a, w, i);
      ClaimsAdvance(run, actor, w, b, i);
    } else {
      ClaimStands(run, actor, a, b, i);
    }
  }

  /** A slot's claim id is kept, dropped, or drawn anew. */
  lemma {:induction false} ClaimsAdvance(run: seq<State>, actor: seq<nat>, a: nat, b: nat, i: nat)
    requires Run(run, actor) && a <= b < |run| && i < |run[a].slots| && i < |run[b].slots|
    ensures run[a].nextClaim <= run[b].nextClaim
    ensures run[b].slots[i].claim in {0, run[a].slots[i].claim} || run[b].slots[i].claim >= run[a].nextClaim
    decreases b
  {
    if a < b {
      RunGrows(run, actor, a, b - 1);
      ClaimsAdvance(run, actor, a, b - 1, i);
      assert Linked(run, actor, b);
      ClaimAdvances(run[b - 1], run[b], actor[b], i);
    }
  }

  lemma ClaimAdvances(s: State, s': State, t: nat, i: nat)
    requires Step(s, s', t) && i < |s.slots| == |s'.slots|
    ensures s.nextClaim <= s'.nextClaim
    ensures s'.slots[i].claim in {0, s.slots[i].claim} || s'.slots[i].claim >= s.nextClaim
  {}

  lemma {:induction false} ClaimStands(run: seq<State>, actor: seq<nat>, a: nat, b: nat, i: nat)
    requires Run(run, actor) && a <= b < |run| && i < |run[a].slots| && i < |run[b].slots|
    requires run[a].slots[i].state.Published?
    requires forall w, me | a < w <= b :: !RemovedBy(run, actor, w, me, i)
    ensures run[b].slots[i].claim == run[a].slots[i].claim && run[b].slots[i].state == run[a].slots[i].state
    decreases b
  {
    if a < b {
      RunGrows(run, actor, a, b - 1);
      ClaimStands(run, actor, a, b - 1, i);
      RunInv(run, actor, b - 1);
      assert Linked(run, actor, b) && !RemovedBy(run, actor, b, actor[b], i);
      PublishedStands(run[b - 1], run[b], actor[b], i);
    }
  }

  lemma PublishedStands(s: State, s': State, t: nat, i: nat)
    requires ClaimInv(s) && Step(s, s', t) && i < |s.slots| == |s'.slots| && s.slots[i].state.Published?
    requires s'.slots[i].state != Empty
    ensures s'.slots[i].claim == s.slots[i].claim && s'.slots[i].state == s.slots[i].state
  {
    StepShape(s, s', t);
    assert OwnerOk(s, t);
  }

  lemma SlotSize(run: seq<State>, actor: seq<nat>, i: nat)
    requires Run(run, actor) && i < |Last(run).slots|
    ensures |Last(run).slots[i].cells| == ENTRY_CELLS
  {
    RunInv(run, actor, |run| - 1);
    assert SlotOwned(Last(run), i);
  }
}
