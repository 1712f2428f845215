/** rmw_wait's persistent armed-fd cache: which fds epoll watches and what each was armed
    for, over any history of waits, entity destructions and fd-number reuse. */
module WaitSet {

  datatype ArmedKind = Subscription | Service | Client | GuardCondition | Doorbell

  /** An entity that can be waited on: the identity stamped at creation, its kind, its
      address, and its fd (negative when it has none). */
  datatype Entity = Entity(uid: nat, kind: ArmedKind, address: nat, fd: int)

  datatype ArmedEntry = ArmedEntry(kind: ArmedKind, entity: nat, uid: nat)

  const DOORBELL_ENTRY := ArmedEntry(Doorbell, 0, 0)

  function EntryOf(e: Entity): ArmedEntry { ArmedEntry(e.kind, e.address, e.uid) }

  /** The entry stands for the doorbell or for an entity in the caller's arrays. */
  ghost predicate OfThisCall(called: seq<Entity>, entry: ArmedEntry) {
    entry == DOORBELL_ENTRY || exists k :: 0 <= k < |called| && entry == EntryOf(called[k])
  }

  /** A live entity, as its creation stamped it. */
  predicate EntityOk(made: map<nat, Entity>, live: set<nat>, e: Entity) {
    e.uid in made && made[e.uid] == e && e.uid in live
  }

  /** Every fd this call armed is in the cache, for an entity of the call or the doorbell. */
  ghost predicate GateSafe(armed: map<int, ArmedEntry>, called: seq<Entity>, armedThisCall: set<int>) {
    forall fd | fd in armedThisCall :: fd in armed && OfThisCall(called, armed[fd])
  }

  /** What is to be waited on under fd passes the gate under its own entry if the kernel watches
      it, and is polled if it does not. */
  predicate Covered(armed: map<int, ArmedEntry>, watched: set<(int, nat)>, fd: int, entry: ArmedEntry,
                    armedThisCall: set<int>, unarmed: seq<ArmedEntry>)
  {
    || fd < 0
    || if (fd, entry.uid) in watched then fd in armedThisCall && fd in armed && armed[fd] == entry
       else entry in unarmed
  }

  /** Only what the kernel neither watches nor accepts is polled. */
  ghost predicate RightlyPolled(called: seq<Entity>, doorbellFd: int, accepts: set<int>, watched: set<(int, nat)>,
                                unarmed: seq<ArmedEntry>)
  {
    forall u | u in unarmed :: (u == DOORBELL_ENTRY && Refused(doorbellFd, 0, accepts, watched))
      || exists k :: 0 <= k < |called| && u == EntryOf(called[k]) && Refused(called[k].fd, called[k].uid, accepts, watched)
  }

  predicate Refused(fd: int, uid: nat, accepts: set<int>, watched: set<(int, nat)>) {
    fd !in accepts && (fd, uid) !in watched
  }

  /** What register_fd does to the cache, the gate and the polling list. */
  predicate Registered(fd: int, entry: ArmedEntry,
                       armed: map<int, ArmedEntry>, gate: set<int>, unarmed: seq<ArmedEntry>,
                       armed': map<int, ArmedEntry>, watched': set<(int, nat)>, gate': set<int>, unarmed': seq<ArmedEntry>)
  {
    if fd < 0 then armed' == armed && gate' == gate && unarmed' == unarmed
    else if (fd, entry.uid) in watched' then
      armed' == armed[fd := entry] && gate' == gate + {fd} && unarmed' == unarmed
    else
      armed' == armed && gate' == gate - {fd} && unarmed' == unarmed + [entry]
  }

  predicate DistinctFds(made: map<nat, Entity>, live: set<nat>) {
    forall u, v | u in live && v in live && u != v && u in made && v in made && made[u].fd >= 0 ::
      made[u].fd != made[v].fd
  }

  predicate AllCovered(armed: map<int, ArmedEntry>, watched: set<(int, nat)>, es: seq<Entity>,
                       gate: set<int>, unarmed: seq<ArmedEntry>)
  {
    forall e | e in es :: Covered(armed, watched, e.fd, EntryOf(e), gate, unarmed)
  }

  /** Registering entry on fd uncovers nobody: a live fd belongs to one entity. */
  lemma CoveredLasts(es: seq<Entity>, fd: int, entry: ArmedEntry, addOk: bool,
                     armed: map<int, ArmedEntry>, watched: set<(int, nat)>, gate: set<int>, unarmed: seq<ArmedEntry>,
                     armed': map<int, ArmedEntry>, watched': set<(int, nat)>, gate': set<int>, unarmed': seq<ArmedEntry>)
    requires AllCovered(armed, watched, es, gate, unarmed)
    requires watched' == if fd >= 0 && addOk then watched + {(fd, entry.uid)} else watched
    requires Registered(fd, entry, armed, gate, unarmed, armed', watched', gate', unarmed')
    requires forall e | e in es && e.fd == fd >= 0 :: entry == EntryOf(e)
    ensures AllCovered(armed', watched', es, gate', unarmed')
  {
    forall e | e in es
      ensures Covered(armed', watched', e.fd, EntryOf(e), gate', unarmed')
    {
      assert Covered(armed, watched, e.fd, EntryOf(e), gate, unarmed);
    }
  }

  lemma PolledLasts(called: seq<Entity>, doorbellFd: int, accepts: set<int>, fd: int, entry: ArmedEntry,
                    watched: set<(int, nat)>, unarmed: seq<ArmedEntry>, watched': set<(int, nat)>, unarmed': seq<ArmedEntry>)
    requires RightlyPolled(called, doorbellFd, accepts, watched, unarmed)
    requires watched' == if fd >= 0 && fd in accepts then watched + {(fd, entry.uid)} else watched
    requires unarmed' == unarmed || (unarmed' == unarmed + [entry] && Refused(fd, entry.uid, accepts, watched'))
    requires (entry == DOORBELL_ENTRY && fd == doorbellFd)
             || exists k :: 0 <= k < |called| && entry == EntryOf(called[k]) && fd == called[k].fd
    ensures RightlyPolled(called, doorbellFd, accepts, watched', unarmed')
  {
    forall u | u in unarmed'
      ensures (u == DOORBELL_ENTRY && Refused(doorbellFd, 0, accepts, watched'))
        || exists k :: 0 <= k < |called| && u == EntryOf(called[k]) && Refused(called[k].fd, called[k].uid, accepts, watched')
    {
      if u in unarmed {
        if !(u == DOORBELL_ENTRY && Refused(doorbellFd, 0, accepts, watched)) {
          var k :| 0 <= k < |called| && u == EntryOf(called[k]) && Refused(called[k].fd, called[k].uid, accepts, watched);
          assert Refused(called[k].fd, called[k].uid, accepts, watched');
        }
      } else {
        assert u == entry;
      }
    }
  }

  class UdsWaitSet {
    const doorbellFd: int
    var armed: map<int, ArmedEntry>
    /** epoll's interest list: fd number and the open file it was registered for. */
    var watched: set<(int, nat)>
    /** Every entity ever created in the process, by uid, and those not yet destroyed. */
    var made: map<nat, Entity>
    var live: set<nat>
    var nextUid: nat

    /** The entry was made for the doorbell or for the entity its uid names. */
    predicate Genuine(fd: int, entry: ArmedEntry)
      reads this
    {
      || (entry == DOORBELL_ENTRY && fd == doorbellFd)
      || (entry.uid in made && EntryOf(made[entry.uid]) == entry && made[entry.uid].fd == fd)
    }

    ghost predicate Valid()
      reads this
    {
      && nextUid > 0
      && (forall u | u in made :: 0 < u < nextUid && made[u].uid == u)
      && (forall u | u in live :: u in made && (made[u].fd >= 0 ==> made[u].fd != doorbellFd))
      && DistinctFds(made, live)
      && (forall fd | fd in armed :: Genuine(fd, armed[fd]))
      && (forall fd | fd in armed :: armed[fd].uid == 0 || armed[fd].uid in live ==> (fd, armed[fd].uid) in watched)
    }

    constructor (doorbellFd: int)
      ensures Valid() && armed == map[] && this.doorbellFd == doorbellFd
    {
      this.doorbellFd := doorbellFd;
      armed, watched, made, live, nextUid := map[], {}, map[], {}, 1;
    }

    // ----- Between waits -----

    /** Create an entity; the kernel gives it an fd no live entity has, perhaps a reused one. */
    method CreateEntity(kind: ArmedKind, address: nat, fd: int) returns (e: Entity)
      requires Valid() && kind != Doorbell
      requires fd >= 0 ==> fd != doorbellFd && forall u | u in live :: made[u].fd != fd
      modifies this
      ensures Valid() && EntityOk(made, live, e) && e.uid !in old(made) && e == Entity(old(nextUid), kind, address, fd)
      ensures armed == old(armed) && watched == old(watched) && live == old(live) + {e.uid}
    {
      e := Entity(nextUid, kind, address, fd);
      made, live, nextUid := made[nextUid := e], live + {nextUid}, nextUid + 1;
    }

    /** Destroy an entity; a dup'ed fd may keep its open file, and its registration, alive. */
    method DestroyEntity(uid: nat, openElsewhere: bool)
      requires Valid() && uid in live
      modifies this
      ensures Valid() && live == old(live) - {uid} && armed == old(armed) && made == old(made)
      ensures watched == if openElsewhere then old(watched) else old(watched) - {(made[uid].fd, uid)}
    {
      if !openElsewhere {
        watched := watched - {(made[uid].fd, uid)};
      }
      live := live - {uid};
    }

    // ----- Arming -----

    /** register_fd: arm fd unless it is already armed for this entity.  `addOk` is whether
        the kernel would accept a new registration. */
    method RegisterFd(fd: int, entry: ArmedEntry, addOk: bool, armedThisCall: set<int>, unarmed: seq<ArmedEntry>)
      returns (armedThisCall': set<int>, unarmed': seq<ArmedEntry>)
      requires Valid() && (fd >= 0 ==> Genuine(fd, entry) && (entry.uid == 0 || entry.uid in live))
      modifies `armed, `watched
      ensures Valid() && watched == if fd >= 0 && addOk then old(watched) + {(fd, entry.uid)} else old(watched)
      ensures Registered(fd, entry, old(armed), armedThisCall, unarmed, armed, watched, armedThisCall', unarmed')
    {
      armedThisCall', unarmed' := armedThisCall, unarmed;
      if fd < 0 {
        return;
      }
      armedThisCall' := armedThisCall' + {fd};
      if fd in armed && armed[fd].uid == entry.uid {
        assert armed == armed[fd := entry];
        return;
      }
      if (fd, entry.uid) in watched {
        // EEXIST: already registered.
      } else if addOk {
        watched := watched + {(fd, entry.uid)};
      } else {
        armedThisCall' := armedThisCall' - {fd};
        unarmed' := unarmed' + [entry];
        return;
      }
      armed := armed[fd := entry];
    }

    /** The arming pass over the call's entities and then the doorbell.  `accepts`: the fds for
        which the kernel would accept a new registration. */
    method Arm(called: seq<Entity>, accepts: set<int>) returns (armedThisCall: set<int>, unarmed: seq<ArmedEntry>)
      requires Valid() && forall e | e in called :: EntityOk(made, live, e)
      modifies `armed, `watched
      ensures Valid() && GateSafe(armed, called, armedThisCall)
      ensures AllCovered(armed, watched, called, armedThisCall, unarmed)
      ensures Covered(armed, watched, doorbellFd, DOORBELL_ENTRY, armedThisCall, unarmed)
      ensures RightlyPolled(called, doorbellFd, accepts, watched, unarmed)
      ensures old(watched) <= watched && (doorbellFd in accepts && doorbellFd >= 0 ==> (doorbellFd, 0) in watched)
      ensures forall e | e in called && e.fd >= 0 && e.fd in accepts :: (e.fd, e.uid) in watched
    {
      armedThisCall, unarmed := {}, [];
      for k := 0 to |called|
        invariant Valid() && GateSafe(armed, called, armedThisCall)
        invariant made == old(made) && live == old(live) && old(watched) <= watched
        invariant AllCovered(armed, watched, called[..k], armedThisCall, unarmed)
        invariant RightlyPolled(called, doorbellFd, accepts, watched, unarmed)
        invariant forall e | e in called[..k] && e.fd >= 0 && e.fd in accepts :: (e.fd, e.uid) in watched
      {
        armedThisCall, unarmed := ArmNext(called, k, accepts, armedThisCall, unarmed);
      }
      assert called[..|called|] == called;
      ghost var armed0, watched0, gate0, unarmed0 := armed, watched, armedThisCall, unarmed;
      armedThisCall, unarmed := RegisterFd(doorbellFd, DOORBELL_ENTRY, doorbellFd in accepts, armedThisCall, unarmed);
      CoveredLasts(called, doorbellFd, DOORBELL_ENTRY, doorbellFd in accepts, armed0, watched0, gate0, unarmed0,
                   armed, watched, armedThisCall, unarmed);
      PolledLasts(called, doorbellFd, accepts, doorbellFd, DOORBELL_ENTRY, watched0, unarmed0, watched, unarmed);
    }

    method ArmNext(called: seq<Entity>, k: nat, accepts: set<int>, armedThisCall: set<int>, unarmed: seq<ArmedEntry>)
      returns (armedThisCall': set<int>, unarmed': seq<ArmedEntry>)
      requires Valid() && k < |called| && forall e | e in called :: EntityOk(made, live, e)
      requires GateSafe(armed, called, armedThisCall)
      requires AllCovered(armed, watched, called[..k], armedThisCall, unarmed)
      requires RightlyPolled(called, doorbellFd, accepts, watched, unarmed)
      requires forall e | e in called[..k] && e.fd >= 0 && e.fd in accepts :: (e.fd, e.uid) in watched
      modifies `armed, `watched
      ensures Valid() && GateSafe(armed, called, armedThisCall') && old(watched) <= watched
      ensures AllCovered(armed, watched, called[..k + 1], armedThisCall', unarmed')
      ensures RightlyPolled(called, doorbellFd, accepts, watched, unarmed')
      ensures forall e | e in called[..k + 1] && e.fd >= 0 && e.fd in accepts :: (e.fd, e.uid) in watched
    {
      var e := called[k];
      assert e in called && EntityOk(made, live, e);
      ghost var armed0, watched0 := armed, watched;
      armedThisCall', unarmed' := RegisterFd(e.fd, EntryOf(e), e.fd in accepts, armedThisCall, unarmed);
      forall f | f in called[..k] && f.fd == e.fd >= 0
        ensures EntryOf(e) == EntryOf(f)
      {
        assert f in called && EntityOk(made, live, f);
      }
      CoveredLasts(called[..k], e.fd, EntryOf(e), e.fd in accepts, armed0, watched0, armedThisCall, unarmed,
                   armed, watched, armedThisCall', unarmed');
      PolledLasts(called, doorbellFd, accepts, e.fd, EntryOf(e), watched0, unarmed, watched, unarmed');
      assert called[..k + 1] == called[..k] + [e];
    }

    // ----- Dispatch -----

    /** The dispatch loop over one batch of ready fds: what passes the gate is handed to its
        entity, anything else is withdrawn without being touched. */
    method Dispatch(called: seq<Entity>, armedThisCall: set<int>, ready: seq<int>)
      returns (dispatched: seq<ArmedEntry>, ghost at: seq<nat>)
      requires Valid() && GateSafe(armed, called, armedThisCall)
      modifies `armed, `watched
      ensures Valid() && GateSafe(armed, called, armedThisCall)
      ensures forall d | d in dispatched :: OfThisCall(called, d)
      ensures Dispatched(old(armed), armedThisCall, ready, dispatched, at)
      ensures armed == old(armed) - Strays(ready, armedThisCall)
      ensures watched == Unwatched(old(watched), Strays(ready, armedThisCall))
    {
      dispatched, at := [], [];
      ghost var armed0, watched0 := armed, watched;
      assert Strays(ready[..0], armedThisCall) == {};
      assert Unwatched(watched0, {}) == watched0 && armed0 - {} == armed0;
      for k := 0 to |ready|
        invariant Valid() && GateSafe(armed, called, armedThisCall)
        invariant forall d | d in dispatched :: OfThisCall(called, d)
        invariant Dispatched(armed0, armedThisCall, ready[..k], dispatched, at)
        invariant armed == armed0 - Strays(ready[..k], armedThisCall)
        invariant watched == Unwatched(watched0, Strays(ready[..k], armedThisCall))
      {
        var rfd := ready[k];
        assert ready[..k + 1] == ready[..k] + [rfd];
        StraysMore(ready[..k], rfd, armedThisCall);
        if rfd in armed && rfd in armedThisCall {
          DispatchMore(armed0, armedThisCall, ready[..k], dispatched, at, rfd);
          dispatched, at := dispatched + [armed[rfd]], at + [k];
        } else {
          Withdraw(rfd);
        }
      }
      assert ready[..|ready|] == ready;
    }

    /** The interest list without the registrations of the files open under these fds. */
    function Unwatched(ws: set<(int, nat)>, fds: set<int>): set<(int, nat)>
      reads this
    {
      set w | w in ws && !(w.0 in fds && (w.1 == 0 || w.1 in live))
    }

    /** EPOLL_CTL_DEL and the cache erase; the registration of a file still open under
        another number is out of reach. */
    method Withdraw(fd: int)
      requires Valid()
      modifies `armed, `watched
      ensures Valid() && armed == old(armed) - {fd}
      ensures watched == Unwatched(old(watched), {fd})
    {
      watched := set w | w in watched && (w.0 != fd || (w.1 != 0 && w.1 !in live));
      armed := armed - {fd};
    }
  }

  /** The ready fds this call did not arm. */
  function Strays(ready: seq<int>, gate: set<int>): set<int> {
    (set fd | fd in ready) - gate
  }

  lemma StraysMore(ready: seq<int>, fd: int, gate: set<int>)
    ensures Strays(ready + [fd], gate) == Strays(ready, gate) + (if fd in gate then {} else {fd})
  {}

  /** The entries of the ready fds that pass the gate, each once, in the order they came. */
  ghost predicate Dispatched(armed: map<int, ArmedEntry>, gate: set<int>, ready: seq<int>,
                             dispatched: seq<ArmedEntry>, at: seq<nat>)
  {
    && |at| == |dispatched|
    && (forall j | 0 <= j < |at| ::
          at[j] < |ready| && ready[at[j]] in gate && ready[at[j]] in armed && dispatched[j] == armed[ready[at[j]]])
    && (forall j, k | 0 <= j < k < |at| :: at[j] < at[k])
    && (forall k: nat | k < |ready| && ready[k] in gate :: k in at)
  }

  lemma DispatchMore(armed: map<int, ArmedEntry>, gate: set<int>, ready: seq<int>,
                     dispatched: seq<ArmedEntry>, at: seq<nat>, fd: int)
    requires Dispatched(armed, gate, ready, dispatched, at) && fd in gate && fd in armed
    ensures Dispatched(armed, gate, ready + [fd], dispatched + [armed[fd]], at + [|ready|])
  {
    var at' := at + [|ready|];
    forall k: nat | k < |ready + [fd]| && (ready + [fd])[k] in gate
      ensures k in at'
    {
      if k == |ready| { assert at'[|at|] == k; }
    }
  }
}
