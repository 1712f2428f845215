/** registry_query over the high-water prefix, and the publisher's subscriber-path cache
    keyed by the registry generation. */
module RegistryQuery {
  import opened Wire
  import opened Schedule
  import opened RegistryProtocol
  import opened RegistryRead

  // ----- Entry fields and filters -----

  const NODE_NAME := 20
  const NODE_NAMESPACE := 276
  const TOPIC_NAME := 532
  const NAME_BYTES := 256
  const SOCKET_PATH := 1044
  const PATH_BYTES := 108

  /** The C string stored in a fixed-size field. */
  function CString(c: Cells): Cells {
    if c == [] || c[0] == 0 then [] else [c[0]] + CString(c[1..])
  }

  function Field(e: Entry, offset: nat, size: nat): Cells
    requires |e.payload| == ENTRY_CELLS && offset + size <= ENTRY_CELLS
  {
    CString(e.payload[offset..offset + size])
  }

  function SocketPath(e: Entry): Cells
    requires |e.payload| == ENTRY_CELLS
  {
    Field(e, SOCKET_PATH, PATH_BYTES)
  }

  /** Absent filters match anything. */
  datatype Filters = Filters(kind: Option<Kind>, topic: Option<Cells>,
                             nodeName: Option<Cells>, nodeNamespace: Option<Cells>)

  predicate Admits<T(==)>(filter: Option<T>, value: T) { filter == None || filter == Some(value) }

  predicate Matches(f: Filters, e: Entry)
    requires |e.payload| == ENTRY_CELLS
  {
    && Admits(f.kind, e.kind) && Admits(f.topic, Field(e, TOPIC_NAME, NAME_BYTES))
    && Admits(f.nodeName, Field(e, NODE_NAME, NAME_BYTES))
    && Admits(f.nodeNamespace, Field(e, NODE_NAMESPACE, NAME_BYTES))
  }

  /** The name is what stands before the first NUL, or the whole field. */
  lemma {:induction false} CStringIs(c: Cells)
    ensures |CString(c)| <= |c| && CString(c) == c[..|CString(c)|] && 0 !in CString(c)
    ensures |CString(c)| < |c| ==> c[|CString(c)|] == 0
  {
    if c != [] && c[0] != 0 { CStringIs(c[1..]); }
  }

  /** A name copied into a field of zeros is read back. */
  lemma {:induction false} CStringRoundTrip(name: Cells, size: nat)
    requires 0 !in name && |name| <= size
    ensures CString(name + seq(size - |name|, _ => 0)) == name
  {
    var field := name + seq(size - |name|, _ => 0);
    if name != [] {
      CStringRoundTrip(name[1..], size - 1);
      assert field[1..] == name[1..] + seq(size - |name|, _ => 0);
    }
  }

  /** The fields queries look at follow one another in the entry, each in its own bytes. */
  lemma FieldsApart()
    ensures NODE_NAME == PID_BYTES + GID_BYTES && NODE_NAMESPACE == NODE_NAME + NAME_BYTES
    ensures TOPIC_NAME == NODE_NAMESPACE + NAME_BYTES && SOCKET_PATH == TOPIC_NAME + 2 * NAME_BYTES
    ensures SOCKET_PATH + PATH_BYTES <= ENTRY_CELLS
  {}

  /** An entry passes unless some filter that is present names another value. */
  lemma MatchesIff(f: Filters, e: Entry)
    requires |e.payload| == ENTRY_CELLS
    ensures !Matches(f, e) <==>
              || (f.kind.Some? && e.kind != f.kind.value)
              || (f.topic.Some? && Field(e, TOPIC_NAME, NAME_BYTES) != f.topic.value)
              || (f.nodeName.Some? && Field(e, NODE_NAME, NAME_BYTES) != f.nodeName.value)
              || (f.nodeNamespace.Some? && Field(e, NODE_NAMESPACE, NAME_BYTES) != f.nodeNamespace.value)
  {}

  // ----- registry_query -----

  /** Each result was a published matching entry of its own slot at some time in the window. */
  ghost predicate Sound(run: seq<State>, a: nat, b: nat, f: Filters, results: seq<Entry>, at: seq<nat>) {
    && |results| == |at|
    && (forall k | 0 <= k < |results| ::
          Shows(run, a, b, at[k], results[k]) && EntryOk(results[k]) && Matches(f, results[k]))
    && (forall j, k | 0 <= j < k < |at| :: at[j] < at[k])
  }

  ghost predicate Found(results: seq<Entry>, at: seq<nat>, i: nat, e: Entry) {
    exists k :: 0 <= k < |results| == |at| && at[k] == i && results[k] == e
  }

  ghost predicate NotMissed(run: seq<State>, a: nat, b: nat, f: Filters, i: nat, results: seq<Entry>, at: seq<nat>) {
    forall e :: Undisturbed(run, a, b, i, e) && EntryOk(e) && Matches(f, e) ==> Found(results, at, i, e)
  }

  predicate Announced(s: State, i: nat) { i < |s.slots| && s.slots[i].bumpedAt > 0 }

  lemma SoundLasts(run: seq<State>, a: nat, b: nat, b': nat, f: Filters, results: seq<Entry>, at: seq<nat>)
    requires Sound(run, a, b, f, results, at) && b <= b'
    ensures Sound(run, a, b', f, results, at)
  {
    forall k | 0 <= k < |results|
      ensures Shows(run, a, b', at[k], results[k])
    {
      assert Shows(run, a, b, at[k], results[k]);
      var t :| a <= t <= b && ShowsAt(run, t, at[k], results[k]);
    }
  }

  lemma UndisturbedWithin(run: seq<State>, a: nat, b: nat, a': nat, b': nat, i: nat, e: Entry)
    requires Undisturbed(run, a, b, i, e) && a <= a' <= b' <= b
    ensures Undisturbed(run, a', b', i, e)
  {
    assert ShowsAt(run, a', i, e);
  }

  lemma NotMissedLasts(run: seq<State>, a: nat, b: nat, b': nat, f: Filters, i: nat,
                       results: seq<Entry>, at: seq<nat>, results': seq<Entry>, at': seq<nat>)
    requires NotMissed(run, a, b, f, i, results, at) && a <= b <= b'
    requires results <= results' && at <= at' && |results| == |at| && |results'| == |at'|
    ensures NotMissed(run, a, b', f, i, results', at')
  {
    forall e | Undisturbed(run, a, b', i, e) && EntryOk(e) && Matches(f, e)
      ensures Found(results', at', i, e)
    {
      UndisturbedWithin(run, a, b', a, b, i, e);
      assert Found(results, at, i, e);
    }
  }

  /** One slot of the scan: the two pre-filters, the snapshot, and the filters again. */
  method VisitSlot(run: seq<State>, actor: seq<nat>, f: Filters, start: nat, i: nat)
    returns (found: Option<Entry>, now: nat)
    requires Run(run, actor) && start < |run| && i < |run[start].slots|
    ensures start <= now < |run|
    ensures found.Some? ==> |found.value.payload| == ENTRY_CELLS && Matches(f, found.value)
    ensures Guarded(run, actor) ==> GoodVisit(run, f, start, now, i, found)
  {
    now := Later(start, |run|);
    RunGrows(run, actor, start, now);
    var preState := run[now].slots[i].state;
    if preState == Empty || (f.kind.Some? && preState != Published(f.kind.value)) {
      forall e | EntryOk(e) && Matches(f, e)
        ensures !ShowsAt(run, now, i, e)
      {}
      return None, now;
    }
    ghost var visited := now;
    var word;
    found, word, now := SnapshotSlot(run, actor, now, i);
    if Guarded(run, actor) {
      SnapshotIsGood(run, start, visited, now, i, found);
    }
    if found.Some? && !Matches(f, found.value) {
      found := None;
    }
  }

  /** The visit yields a published matching entry, and any that stayed throughout. */
  ghost predicate GoodVisit(run: seq<State>, f: Filters, a: nat, b: nat, i: nat, found: Option<Entry>) {
    && (found.Some? ==> Shows(run, a, b, i, found.value) && EntryOk(found.value) && Matches(f, found.value))
    && forall e :: Undisturbed(run, a, b, i, e) && EntryOk(e) && Matches(f, e) ==> found == Some(e)
  }

  lemma SnapshotIsGood(run: seq<State>, a: nat, visited: nat, b: nat, i: nat, found: Option<Entry>)
    requires a <= visited <= b && (found.Some? ==> Shows(run, visited, b, i, found.value))
    requires forall e :: Undisturbed(run, visited, b, i, e) ==> found == Some(e)
    ensures found.Some? ==> Shows(run, a, b, i, found.value) && EntryOk(found.value)
    ensures forall e :: Undisturbed(run, a, b, i, e) ==> found == Some(e)
  {
    if found.Some? {
      var t :| visited <= t <= b && ShowsAt(run, t, i, found.value);
    }
    forall e | Undisturbed(run, a, b, i, e)
      ensures found == Some(e)
    {
      UndisturbedWithin(run, a, b, visited, b, i, e);
    }
  }

  /** QUERY.  In a guarded run, everything returned was really published in the window, in
      slot order; every matching entry announced before the query began and undisturbed until
      it ended is returned, although only the high-water prefix is scanned. */
  method RegistryQuery(run: seq<State>, actor: seq<nat>, f: Filters, start: nat)
    returns (results: seq<Entry>, ghost at: seq<nat>, now: nat)
    requires Run(run, actor) && start < |run|
    ensures start <= now < |run| && |results| == |at|
    ensures forall k | 0 <= k < |results| :: |results[k].payload| == ENTRY_CELLS && Matches(f, results[k])
    ensures Guarded(run, actor) ==> Sound(run, start, now, f, results, at)
    ensures Guarded(run, actor) ==>
              forall i :: Announced(run[start], i) ==> NotMissed(run, start, now, f, i, results, at)
  {
    now := Later(start, |run|);
    RunGrows(run, actor, start, now);
    var bound := if run[now].highWater < |run[now].slots| then run[now].highWater else |run[now].slots|;
    results, at := [], [];
    var i := 0;
    while i < bound
      invariant i <= bound && start <= now < |run| && |results| == |at|
      invariant forall k | 0 <= k < |results| :: |results[k].payload| == ENTRY_CELLS && Matches(f, results[k])
      invariant Guarded(run, actor) ==> ScannedTo(run, start, now, f, i, results, at)
    {
      ghost var before, results0, at0 := now, results, at;
      var found;
      RunGrows(run, actor, start, now);
      found, now := VisitSlot(run, actor, f, now, i);
      if found.Some? {
        results, at := results + [found.value], at + [i];
      }
      if Guarded(run, actor) {
        VisitExtends(run, start, before, now, f, i, found, results0, at0);
      }
      i := i + 1;
    }
    RunInv(run, actor, start);
  }

  /** The scan has passed the slots below n. */
  ghost predicate ScannedTo(run: seq<State>, a: nat, b: nat, f: Filters, n: nat, results: seq<Entry>, at: seq<nat>) {
    && Sound(run, a, b, f, results, at) && (forall k | 0 <= k < |at| :: at[k] < n)
    && forall j | 0 <= j < n :: NotMissed(run, a, b, f, j, results, at)
  }

  lemma VisitExtends(run: seq<State>, a: nat, b: nat, c: nat, f: Filters, i: nat, found: Option<Entry>,
                     results: seq<Entry>, at: seq<nat>)
    requires a <= b <= c && ScannedTo(run, a, b, f, i, results, at) && GoodVisit(run, f, b, c, i, found)
    ensures found.Some? ==> ScannedTo(run, a, c, f, i + 1, results + [found.value], at + [i])
    ensures found.None? ==> ScannedTo(run, a, c, f, i + 1, results, at)
  {
    if found.Some? {
      SoundMore(run, a, b, c, f, i, found.value, results, at);
      VisitMissesNothing(run, a, b, c, f, i, found, results, at, results + [found.value], at + [i]);
    } else {
      SoundLasts(run, a, b, c, f, results, at);
      VisitMissesNothing(run, a, b, c, f, i, found, results, at, results, at);
    }
  }

  lemma SoundMore(run: seq<State>, a: nat, b: nat, c: nat, f: Filters, i: nat, e: Entry,
                  results: seq<Entry>, at: seq<nat>)
    requires a <= b <= c && Sound(run, a, b, f, results, at) && (forall k | 0 <= k < |at| :: at[k] < i)
    requires Shows(run, b, c, i, e) && EntryOk(e) && Matches(f, e)
    ensures Sound(run, a, c, f, results + [e], at + [i]) && Found(results + [e], at + [i], i, e)
  {
    SoundLasts(run, a, b, c, f, results, at);
    ShowsWithin(run, b, a, c, i, e);
    assert (at + [i])[|results|] == i && (results + [e])[|results|] == e;
  }

  /** The visit of slot i misses nothing there, and loses nothing found before. */
  lemma VisitMissesNothing(run: seq<State>, a: nat, b: nat, c: nat, f: Filters, i: nat, found: Option<Entry>,
                           results: seq<Entry>, at: seq<nat>, results': seq<Entry>, at': seq<nat>)
    requires a <= b <= c && |results| == |at| && |results'| == |at'| && results <= results' && at <= at'
    requires forall j | 0 <= j < i :: NotMissed(run, a, b, f, j, results, at)
    requires forall e :: Undisturbed(run, b, c, i, e) && EntryOk(e) && Matches(f, e) ==> found == Some(e)
    requires found.Some? ==> Found(results', at', i, found.value)
    ensures forall j | 0 <= j <= i :: NotMissed(run, a, c, f, j, results', at')
  {
    forall j | 0 <= j < i
      ensures NotMissed(run, a, c, f, j, results', at')
    {
      NotMissedLasts(run, a, b, c, f, j, results, at, results', at');
    }
    forall e | Undisturbed(run, a, c, i, e) && EntryOk(e) && Matches(f, e)
      ensures Found(results', at', i, e)
    {
      UndisturbedWithin(run, a, c, b, c, i, e);
    }
  }

  lemma ShowsWithin(run: seq<State>, a: nat, a': nat, b: nat, i: nat, e: Entry)
    requires Shows(run, a, b, i, e) && a' <= a
    ensures Shows(run, a', b, i, e)
  {
    var t :| a <= t <= b && ShowsAt(run, t, i, e);
  }

  // ----- What a generation covers -----

  /** An announcement covered by the generation already reached is older than the step. */
  lemma StepAnnounced(s: State, s': State, t: nat, i: nat)
    requires ClaimInv(s) && ClaimInv(s') && SeqlockInv(s) && Step(s, s', t) && i < |s.slots| == |s'.slots|
    requires 0 < s'.slots[i].bumpedAt <= s.generation
    ensures s.slots[i] == s'.slots[i]
  {
    StepShape(s, s', t);
    assert OwnerOk(s, t) && WriterOk(s, t) && SlotOwned(s, i) && SlotOwned(s', i);
  }

  lemma {:induction false} AnnouncedSince(run: seq<State>, actor: seq<nat>, a: nat, t: nat, b: nat, i: nat)
    requires Run(run, actor) && Guarded(run, actor) && a <= t <= b < |run|
    requires Announced(run[b], i) && run[b].slots[i].bumpedAt <= run[a].generation
    ensures i < |run[t].slots| && run[t].slots[i] == run[b].slots[i]
    decreases b - t
  {
    if t < b {
      AnnouncedSince(run, actor, a, t + 1, b, i);
      RunGrows(run, actor, a, t);
      RunSeqlock(run, actor, t);
      RunSeqlock(run, actor, t + 1);
      assert Linked(run, actor, t + 1);
      StepShape(run[t], run[t + 1], actor[t + 1]);
      StepAnnounced(run[t], run[t + 1], actor[t + 1], i);
    }
  }

  /** A slot announced by a generation that was reached at `a`, and still so at `b`, shows
      one entry all through the window. */
  lemma CoveredIsUndisturbed(run: seq<State>, actor: seq<nat>, a: nat, b: nat, i: nat)
    requires Run(run, actor) && a <= b < |run|
    requires Announced(run[b], i) && run[b].slots[i].bumpedAt <= run[a].generation
    ensures Guarded(run, actor) ==>
              && Announced(run[a], i) && run[b].slots[i].fill.Some?
              && run[b].slots[i].state == Published(run[b].slots[i].fill.value.kind)
              && Undisturbed(run, a, b, i, run[b].slots[i].fill.value)
  {
    if Guarded(run, actor) {
      RunSeqlock(run, actor, b);
      assert WordOk(run[b], i) && SlotOwned(run[b], i);
      var e := run[b].slots[i].fill.value;
      forall t | a <= t <= b
        ensures ShowsAt(run, t, i, e) && run[t].slots[i].seqWord == run[b].slots[i].seqWord
      {
        AnnouncedSince(run, actor, a, t, b, i);
      }
      AnnouncedSince(run, actor, a, a, b, i);
    }
  }

  // ----- The subscriber-path cache of one publisher -----

  predicate HasPath(subs: seq<Entry>, k: nat, path: Cells) {
    k < |subs| && |subs[k].payload| == ENTRY_CELLS && path != [] && SocketPath(subs[k]) == path
  }

  /** paths[j] is the path of entry of[j]; the entries that have one come in order, each once. */
  ghost predicate ArePaths(subs: seq<Entry>, paths: seq<Cells>, of: seq<nat>) {
    && |of| == |paths| && (forall j | 0 <= j < |of| :: HasPath(subs, of[j], paths[j]))
    && (forall j, k | 0 <= j < k < |of| :: of[j] < of[k])
    && (forall k: nat, p | HasPath(subs, k, p) :: k in of)
  }

  /** The non-empty socket paths of the entries. */
  method PathsOf(subs: seq<Entry>) returns (paths: seq<Cells>, ghost of: seq<nat>)
    requires forall k | 0 <= k < |subs| :: |subs[k].payload| == ENTRY_CELLS
    ensures ArePaths(subs, paths, of)
  {
    paths, of := [], [];
    for k := 0 to |subs|
      invariant |of| == |paths| && (forall j | 0 <= j < |of| :: of[j] < k && HasPath(subs, of[j], paths[j]))
      invariant forall i, j | 0 <= i < j < |of| :: of[i] < of[j]
      invariant forall i: nat, p | HasPath(subs, i, p) && i < k :: i in of
    {
      var path := SocketPath(subs[k]);
      if path != [] {
        ghost var of0 := of;
        assert HasPath(subs, k, path);
        paths, of := paths + [path], of + [k];
        assert of[|of0|] == k && forall i | i in of0 :: i in of;
      }
    }
  }

  class SubscriberCache {
    const topic: Cells
    var cachedGeneration: nat
    var paths: seq<Cells>
    /** When the query that built `paths` began and ended, and the slot of each path. */
    ghost var builtFrom: nat
    ghost var builtAt: nat
    ghost var slotOf: seq<nat>

    constructor (topic: Cells)
      ensures this.topic == topic && cachedGeneration == 0 && paths == []
      ensures forall run, actor :: Run(run, actor) ==> Accurate(run, actor)
    {
      this.topic, cachedGeneration, paths := topic, 0, [];
      builtFrom, builtAt, slotOf := 0, 0, [];
    }

    /** A subscriber of the topic with a socket. */
    predicate IsSubscriber(e: Entry) {
      EntryOk(e) && e.kind == Subscription && Field(e, TOPIC_NAME, NAME_BYTES) == topic && SocketPath(e) != []
    }

    /** A subscriber of the topic in slot i, announced by generation g or earlier. */
    ghost predicate Subscribed(s: State, i: nat, g: nat, e: Entry) {
      i < |s.slots| && 0 < s.slots[i].bumpedAt <= g && s.slots[i].fill == Some(e) && IsSubscriber(e)
    }

    /** CACHE SOUNDNESS: the cached generation g implies that the paths include every
        subscriber announced by g or earlier and not removed before the query ended. */
    ghost predicate Covers(run: seq<State>, actor: seq<nat>)
      reads this
    {
      && builtAt < |run|
      && forall i, e :: Subscribed(run[builtAt], i, cachedGeneration, e) ==> SocketPath(e) in paths
    }

    /** Slot i showed a subscriber of the topic with that path while the list was built. */
    ghost predicate ShowedPath(run: seq<State>, i: nat, path: Cells)
      reads this
    {
      exists e :: Shows(run, builtFrom, builtAt, i, e) && IsSubscriber(e) && SocketPath(e) == path
    }

    /** Nothing but subscribers of the topic is in the list, each slot at most once. */
    ghost predicate OnlySubscribers(run: seq<State>)
      reads this
    {
      && |slotOf| == |paths| && (forall j | 0 <= j < |paths| :: ShowedPath(run, slotOf[j], paths[j]))
      && (forall j, k | 0 <= j < k < |slotOf| :: slotOf[j] < slotOf[k])
    }

    ghost predicate Accurate(run: seq<State>, actor: seq<nat>)
      reads this
    {
      Covers(run, actor) && OnlySubscribers(run)
    }

    /** refresh_sub_paths, for a generation loaded at any earlier time: publishers race, so
        the loads may come in any order. */
    method RefreshSubPaths(run: seq<State>, actor: seq<nat>, loadedAt: nat, currentGen: nat, start: nat)
      returns (list: seq<Cells>, now: nat)
      requires Run(run, actor) && loadedAt <= start < |run| && currentGen == run[loadedAt].generation
      requires Guarded(run, actor) ==> Accurate(run, actor)
      modifies this
      ensures start <= now < |run| && list == paths && (Guarded(run, actor) ==> Accurate(run, actor))
      ensures cachedGeneration == if currentGen > old(cachedGeneration) then currentGen else old(cachedGeneration)
      ensures currentGen <= old(cachedGeneration) ==> unchanged(this)
      ensures currentGen > old(cachedGeneration) ==> builtFrom == start && builtAt == now
    {
      now := start;
      if currentGen > cachedGeneration {
        now := Rebuild(run, actor, loadedAt, currentGen, start);
      }
      list := paths;
    }

    /** The query, and the list of its paths. */
    method Rebuild(run: seq<State>, actor: seq<nat>, loadedAt: nat, currentGen: nat, start: nat) returns (now: nat)
      requires Run(run, actor) && loadedAt <= start < |run| && currentGen == run[loadedAt].generation
      modifies this
      ensures start <= now < |run| && (Guarded(run, actor) ==> Accurate(run, actor))
      ensures cachedGeneration == currentGen && builtFrom == start && builtAt == now
    {
      var subs;
      ghost var at, of;
      var filters := Filters(Some(Subscription), Some(topic), None, None);
      subs, at, now := RegistryQuery(run, actor, filters, start);
      var found;
      found, of := PathsOf(subs);
      cachedGeneration, paths := currentGen, found;
      builtFrom, builtAt := start, now;
      slotOf := seq(|of|, j requires 0 <= j < |of| && of[j] < |at| => at[of[j]]);
      if Guarded(run, actor) {
        BuiltCovers(run, actor, loadedAt, filters, subs, at, of);
        BuiltOnly(run, filters, subs, at, of);
      }
    }

    lemma BuiltCovers(run: seq<State>, actor: seq<nat>, loadedAt: nat, filters: Filters,
                      subs: seq<Entry>, at: seq<nat>, of: seq<nat>)
      requires Run(run, actor) && Guarded(run, actor) && loadedAt <= builtFrom <= builtAt < |run|
      requires cachedGeneration == run[loadedAt].generation && filters == Filters(Some(Subscription), Some(topic), None, None)
      requires |subs| == |at| && forall i :: Announced(run[builtFrom], i) ==> NotMissed(run, builtFrom, builtAt, filters, i, subs, at)
      requires ArePaths(subs, paths, of)
      ensures Covers(run, actor)
    {
      forall i, e | Subscribed(run[builtAt], i, cachedGeneration, e)
        ensures SocketPath(e) in paths
      {
        RunGrows(run, actor, loadedAt, builtFrom);
        CoveredIsUndisturbed(run, actor, builtFrom, builtAt, i);
        assert NotMissed(run, builtFrom, builtAt, filters, i, subs, at);
        assert Found(subs, at, i, e);
        var k :| 0 <= k < |subs| && at[k] == i && subs[k] == e;
        assert HasPath(subs, k, SocketPath(e));
        var j :| 0 <= j < |of| && of[j] == k;
        assert paths[j] == SocketPath(e);
      }
    }

    lemma BuiltOnly(run: seq<State>, filters: Filters, subs: seq<Entry>, at: seq<nat>, of: seq<nat>)
      requires filters == Filters(Some(Subscription), Some(topic), None, None)
      requires Sound(run, builtFrom, builtAt, filters, subs, at) && ArePaths(subs, paths, of)
      requires |slotOf| == |of| && forall j | 0 <= j < |of| && of[j] < |at| :: slotOf[j] == at[of[j]]
      ensures OnlySubscribers(run)
    {
      forall j | 0 <= j < |paths|
        ensures ShowedPath(run, slotOf[j], paths[j])
      {
        var e := subs[of[j]];
        assert HasPath(subs, of[j], paths[j]) && IsSubscriber(e);
        assert Shows(run, builtFrom, builtAt, at[of[j]], e);
      }
      forall j, k | 0 <= j < k < |slotOf|
        ensures slotOf[j] < slotOf[k]
      {
        assert HasPath(subs, of[j], paths[j]) && HasPath(subs, of[k], paths[k]);
      }
    }
  }
}
