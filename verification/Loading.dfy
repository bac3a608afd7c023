/** UnitOfWork.GetById, DomainRepository.Load and DefaultAggregateSnapshotter: loading with and without a snapshot. */
module Loading {
  import opened Common
  import opened EventStreams
  import opened MongoStore
  import opened EventSourcing

  datatype Snapshot<P> = Snapshot(sourceId: Guid, version: int, payload: P)

  /** An aggregate type: its handlers' behaviour, what its constructor sets up, its snapshot methods, and whether
      the validator lets it load a snapshot of its own payload. */
  datatype AggregateType<!S, !P> = AggregateType(
    dispatch: Dispatch<S>,
    handlers: seq<HandlerId>,
    state: S,
    create: S -> P,
    restore: (S, P) -> S,
    supportsSnapshot: bool)

  /** CreateAggregateRoot: `newId` is what the id generator gives. */
  function Create<S, P>(t: AggregateType<S, P>, newId: Guid): Aggregate<S> {
    Fresh(newId, t.handlers, t.state)
  }

  datatype LoadResult<S> =
    | Loaded(aggregate: Aggregate<S>)
    | NoAggregate
    | Failed(error: ReplayError)
    | Corrupt  // the events read do not make a stream

  function ResultOf<S>(r: Replaying<S>): LoadResult<S> {
    match r.error
    case None => Loaded(r.aggregate)
    case Some(error) => Failed(error)
  }

  /** InitializeFromSnapshot, then RestoreFromSnapshot. */
  function Restored<S, P>(t: AggregateType<S, P>, newId: Guid, snapshot: Snapshot<P>): Aggregate<S> {
    Create(t, newId).(id := snapshot.sourceId, initialVersion := snapshot.version, currentVersion := snapshot.version,
                      state := t.restore(t.state, snapshot.payload))
  }

  /** TryLoadFromSnapshot; None when it returns false. */
  function FromSnapshot<S, P>(t: AggregateType<S, P>, newId: Guid, snapshot: Option<Snapshot<P>>,
                              stream: CommittedEventStream): Option<LoadResult<S>>
  {
    if snapshot.Some? && t.supportsSnapshot then
      Some(ResultOf(Replay(t.dispatch, Restored(t, newId, snapshot.value), stream)))
    else None
  }

  /** GetByIdFromScratch. */
  function FromScratch<S, P>(t: AggregateType<S, P>, newId: Guid, stream: CommittedEventStream): LoadResult<S> {
    if stream.events == [] then NoAggregate else ResultOf(Replay(t.dispatch, Create(t, newId), stream))
  }

  function Load<S, P>(t: AggregateType<S, P>, newId: Guid, snapshot: Option<Snapshot<P>>,
                      stream: CommittedEventStream): LoadResult<S>
  {
    match FromSnapshot(t, newId, snapshot, stream)
    case Some(r) => r
    case None => FromScratch(t, newId, stream)
  }

  /** The latest stored snapshot, unless it is beyond what was asked for. */
  function SnapshotUpTo<P>(latest: Option<Snapshot<P>>, maxVersion: int): Option<Snapshot<P>> {
    if latest.Some? && latest.value.version > maxVersion then None else latest
  }

  /** The rest of GetById: the events read must make a stream. */
  function LoadRead<S, P>(t: AggregateType<S, P>, newId: Guid, id: Guid, snapshot: Option<Snapshot<P>>,
                          es: seq<CommittedEvent>): LoadResult<S>
  {
    if IsStream(id, es) then Load(t, newId, snapshot, StreamOf(id, es)) else Corrupt
  }

  function Maximum(revision: Option<int>): int {
    if revision.Some? then revision.value else LONG_MAX
  }

  function Minimum<P>(snapshot: Option<Snapshot<P>>): int {
    if snapshot.Some? then snapshot.value.version + 1 else LONG_MIN
  }

  /** UnitOfWork.GetById over the stored events of the source. */
  function GetById<S, P>(t: AggregateType<S, P>, newId: Guid, id: Guid, stored: seq<CommittedEvent>,
                         latest: Option<Snapshot<P>>, lastKnownRevision: Option<int>): LoadResult<S>
  {
    var maxVersion := Maximum(lastKnownRevision);
    var snapshot := SnapshotUpTo(latest, maxVersion);
    LoadRead(t, newId, id, snapshot, Read(stored, Minimum(snapshot), maxVersion))
  }

  function TakeSnapshot<S, P>(t: AggregateType<S, P>, a: Aggregate<S>): Snapshot<P> {
    Snapshot(a.id, a.currentVersion, t.create(a.state))
  }

  // ----- Replaying in two stretches -----

  lemma {:induction false} ReplayConcat<S>(d: Dispatch<S>, a: Aggregate<S>, x: seq<CommittedEvent>,
                                           y: seq<CommittedEvent>)
    ensures ReplayAll(d, a, x + y) ==
            if ReplayAll(d, a, x).error.Some? then ReplayAll(d, a, x) else ReplayAll(d, ReplayAll(d, a, x).aggregate, y)
  {
    if y == [] {
      assert x + y == x;
    } else {
      assert (x + y)[..|x + y| - 1] == x + y[..|y| - 1];
      ReplayConcat(d, a, x, y[..|y| - 1]);
    }
  }

  /** Replaying pays no attention to the initial version. */
  lemma {:induction false} InitialVersionDoesNotMatter<S>(d: Dispatch<S>, a: Aggregate<S>, initial: int,
                                                          es: seq<CommittedEvent>)
    ensures ReplayAll(d, a.(initialVersion := initial), es) ==
            Replaying(ReplayAll(d, a, es).aggregate.(initialVersion := initial), ReplayAll(d, a, es).error)
  {
    if es != [] {
      var front, last := es[..|es| - 1], es[|es| - 1];
      InitialVersionDoesNotMatter(d, a, initial, front);
      var before := ReplayAll(d, a, front).aggregate;
      HandlersIgnoreInitial(d, before, initial, before.handlers, last.payload);
    }
  }

  lemma {:induction false} HandlersIgnoreInitial<S>(d: Dispatch<S>, a: Aggregate<S>, initial: int,
                                                    handlers: seq<HandlerId>, e: Payload)
    ensures RunHandlers(d, a.(initialVersion := initial), handlers, e) ==
            Handling(RunHandlers(d, a, handlers, e).aggregate.(initialVersion := initial),
                     RunHandlers(d, a, handlers, e).handled)
  {
    if handlers != [] {
      HandlersIgnoreInitial(d, a, initial, handlers[..|handlers| - 1], e);
    }
  }

  // ----- Full replay, by hand -----

  /** The stored events of a source: numbered 1, 2, ... */
  ghost predicate IsHistory(id: Guid, stored: seq<CommittedEvent>) {
    |stored| <= LONG_MAX &&
    forall i | 0 <= i < |stored| :: stored[i].sourceId == id && stored[i].sequence == i + 1
  }

  function Min(a: int, b: int): int {
    if a < b then a else b
  }

  /** Sorting what was found changes nothing when it is a stretch of a history. */
  lemma ReadsStream(id: Guid, stored: seq<CommittedEvent>, minVersion: int, maxVersion: int)
    requires IsHistory(id, stored)
    ensures OrderBySequence(InRange(stored, minVersion, maxVersion)) == InRange(stored, minVersion, maxVersion)
    ensures IsStream(id, InRange(stored, minVersion, maxVersion))
  {
    RangeIsStream(id, stored, minVersion, maxVersion);
    OrderingAnyArrangement(InRange(stored, minVersion, maxVersion), InRange(stored, minVersion, maxVersion));
  }

  lemma ReadsPrefix(id: Guid, stored: seq<CommittedEvent>, m: nat)
    requires IsHistory(id, stored)
    ensures Read(stored, LONG_MIN, m) == stored[..Min(m, |stored|)]
    ensures IsStream(id, stored[..Min(m, |stored|)])
  {
    RangeIsSlice(stored, LONG_MIN, m);
    ReadsStream(id, stored, LONG_MIN, m);
  }

  lemma ReadsTail(id: Guid, stored: seq<CommittedEvent>, k: nat, m: nat)
    requires IsHistory(id, stored) && k <= |stored| && k <= m
    ensures Read(stored, k + 1, m) == stored[k..Min(m, |stored|)]
    ensures IsStream(id, stored[k..Min(m, |stored|)])
  {
    RangeIsSlice(stored, k + 1, m);
    ReadsStream(id, stored, k + 1, m);
  }

  /** Loading without a snapshot: replay of the events up to the maximum, initial version set to the last. */
  lemma FullLoad<S, P>(t: AggregateType<S, P>, newId: Guid, id: Guid, stored: seq<CommittedEvent>, m: nat)
    requires IsHistory(id, stored) && stored != [] && 1 <= m
    ensures var r := ReplayAll(t.dispatch, Create(t, id), stored[..Min(m, |stored|)]);
      GetById(t, newId, id, stored, None, Some(m)) ==
        if r.error.Some? then Failed(r.error.value)
        else Loaded(r.aggregate.(initialVersion := Min(m, |stored|)))
    ensures ReplayAll(t.dispatch, Create(t, id), stored[..Min(m, |stored|)]).error == None ==>
      ReplayAll(t.dispatch, Create(t, id), stored[..Min(m, |stored|)]).aggregate.currentVersion == Min(m, |stored|)
  {
    ReadsPrefix(id, stored, m);
    ReplayVersions(t.dispatch, Create(t, id), stored[..Min(m, |stored|)]);
    ScratchLoads(t, newId, id, stored[..Min(m, |stored|)]);
  }

  lemma ScratchLoads<S, P>(t: AggregateType<S, P>, newId: Guid, id: Guid, es: seq<CommittedEvent>)
    requires IsStream(id, es) && es != []
    ensures var r := ReplayAll(t.dispatch, Create(t, id), es);
      LoadRead(t, newId, id, None, es) ==
        if r.error.Some? then Failed(r.error.value)
        else Loaded(r.aggregate.(initialVersion := es[|es| - 1].sequence))
  {
    assert Create(t, newId).(id := id) == Create(t, id);
  }

  /** Without a snapshot nothing is loaded exactly when nothing is stored up to the revision asked for. */
  lemma NullExactlyWhenNothingStored<S, P>(t: AggregateType<S, P>, newId: Guid, id: Guid, stored: seq<CommittedEvent>,
                                           revision: Option<int>)
    requires IsHistory(id, stored)
    ensures GetById(t, newId, id, stored, None, revision) == NoAggregate <==>
            stored == [] || (revision.Some? && revision.value < 1)
  {
    RangeIsSlice(stored, LONG_MIN, Maximum(revision));
    ReadsStream(id, stored, LONG_MIN, Maximum(revision));
    NullExactlyWhenNothingRead<S, P>(t, newId, id, Read(stored, LONG_MIN, Maximum(revision)));
  }

  lemma NullExactlyWhenNothingRead<S, P>(t: AggregateType<S, P>, newId: Guid, id: Guid, es: seq<CommittedEvent>)
    requires IsStream(id, es)
    ensures LoadRead(t, newId, id, None, es) == NoAggregate <==> es == []
  {
  }

  /** Loading with a snapshot the validator accepts: replay of the events after it on the restored aggregate. */
  lemma SnapshotLoad<S, P>(t: AggregateType<S, P>, newId: Guid, id: Guid, stored: seq<CommittedEvent>,
                           snapshot: Snapshot<P>, m: nat)
    requires IsHistory(id, stored) && t.supportsSnapshot && snapshot.sourceId == id
    requires 0 <= snapshot.version <= |stored| && snapshot.version <= m
    ensures var r := ReplayAll(t.dispatch, Restored(t, newId, snapshot), stored[snapshot.version..Min(m, |stored|)]);
      GetById(t, newId, id, stored, Some(snapshot), Some(m)) ==
        if r.error.Some? then Failed(r.error.value)
        else Loaded(r.aggregate.(initialVersion := Min(m, |stored|)))
  {
    var tail := stored[snapshot.version..Min(m, |stored|)];
    SnapshotReads(t, newId, id, stored, snapshot, m);
    LoadFrom(t.dispatch, Restored(t, newId, snapshot), tail, Min(m, |stored|));
  }

  lemma SnapshotReads<S, P>(t: AggregateType<S, P>, newId: Guid, id: Guid, stored: seq<CommittedEvent>,
                            snapshot: Snapshot<P>, m: nat)
    requires IsHistory(id, stored) && t.supportsSnapshot && snapshot.sourceId == id
    requires 0 <= snapshot.version <= |stored| && snapshot.version <= m
    ensures var tail := stored[snapshot.version..Min(m, |stored|)];
      GetById(t, newId, id, stored, Some(snapshot), Some(m)) ==
        ResultOf(Replay(t.dispatch, Restored(t, newId, snapshot), StreamOf(id, tail)))
  {
    ReadsAfterSnapshot(t, newId, id, stored, snapshot, m);
  }

  lemma ReadsAfterSnapshot<S, P>(t: AggregateType<S, P>, newId: Guid, id: Guid, stored: seq<CommittedEvent>,
                                 snapshot: Snapshot<P>, m: nat)
    requires IsHistory(id, stored) && 0 <= snapshot.version <= |stored| && snapshot.version <= m
    ensures var tail := stored[snapshot.version..Min(m, |stored|)];
      IsStream(id, tail) && GetById(t, newId, id, stored, Some(snapshot), Some(m)) ==
                            LoadRead(t, newId, id, Some(snapshot), tail)
  {
    ReadsTail(id, stored, snapshot.version, m);
  }

  lemma LoadFrom<S>(d: Dispatch<S>, a: Aggregate<S>, tail: seq<CommittedEvent>, last: int)
    requires a.initialVersion == a.currentVersion && last == a.currentVersion + |tail|
    requires tail != [] ==> tail[|tail| - 1].sequence == last
    ensures var r := ReplayAll(d, a, tail);
      ResultOf(Replay(d, a, StreamOf(a.id, tail))) ==
        if r.error.Some? then Failed(r.error.value) else Loaded(r.aggregate.(initialVersion := last))
  {
    assert a.(id := a.id) == a;
  }

  // ----- Snapshots -----

  /** Nothing is lost in a snapshot of `a`: no handler was registered since creation, restoring inverts creating,
      and the validator accepts the payload. */
  predicate SnapshotIsFaithful<S(==), P>(t: AggregateType<S, P>, a: Aggregate<S>) {
    t.supportsSnapshot && a.handlers == t.handlers && t.restore(t.state, t.create(a.state)) == a.state
  }

  /** Restoring a faithful snapshot gives back the aggregate it was taken of. */
  lemma RestoredIsOriginal<S, P>(t: AggregateType<S, P>, newId: Guid, a: Aggregate<S>)
    requires SnapshotIsFaithful(t, a) && a.initialVersion == a.currentVersion
    ensures Restored(t, newId, TakeSnapshot(t, a)) == a
  {
  }

  /** From a faithful snapshot at version `k`, any later version loads as it does by full replay. */
  lemma FaithfulSnapshotLoads<S, P>(t: AggregateType<S, P>, newId: Guid, id: Guid, stored: seq<CommittedEvent>,
                                    k: nat, a: Aggregate<S>, m: nat)
    requires IsHistory(id, stored) && 1 <= k <= |stored| && k <= m
    requires GetById(t, newId, id, stored, None, Some(k)) == Loaded(a) && SnapshotIsFaithful(t, a)
    ensures GetById(t, newId, id, stored, Some(TakeSnapshot(t, a)), Some(m)) ==
              GetById(t, newId, id, stored, None, Some(m))
  {
    FullLoad(t, newId, id, stored, k);
    ReplayVersions(t.dispatch, Create(t, id), stored[..k]);
    RestoredIsOriginal(t, newId, a);
    RestoredLoads(t, newId, id, stored, k, a, TakeSnapshot(t, a), m);
  }

  /** From whatever snapshot restores to what full replay gives at its version, any later version loads alike. */
  lemma RestoredLoads<S, P>(t: AggregateType<S, P>, newId: Guid, id: Guid, stored: seq<CommittedEvent>,
                            k: nat, a: Aggregate<S>, snapshot: Snapshot<P>, m: nat)
    requires IsHistory(id, stored) && 1 <= k <= |stored| && k <= m && t.supportsSnapshot
    requires GetById(t, newId, id, stored, None, Some(k)) == Loaded(a)
    requires snapshot.sourceId == id && snapshot.version == k && Restored(t, newId, snapshot) == a
    ensures GetById(t, newId, id, stored, Some(snapshot), Some(m)) == GetById(t, newId, id, stored, None, Some(m))
  {
    var n := Min(m, |stored|);
    FullLoad(t, newId, id, stored, k);
    FullLoad(t, newId, id, stored, m);
    SnapshotLoad(t, newId, id, stored, snapshot, m);
    ReplayInTwoStretches(t.dispatch, Create(t, id), stored, k, n);
  }

  /** Replaying a prefix, noting its version as the initial one, and replaying the rest. */
  lemma ReplayInTwoStretches<S>(d: Dispatch<S>, a: Aggregate<S>, es: seq<CommittedEvent>, k: nat, n: nat)
    requires k <= n <= |es| && ReplayAll(d, a, es[..k]).error == None
    ensures ReplayAll(d, ReplayAll(d, a, es[..k]).aggregate.(initialVersion := k), es[k..n]) ==
            Replaying(ReplayAll(d, a, es[..n]).aggregate.(initialVersion := k), ReplayAll(d, a, es[..n]).error)
  {
    assert es[..n] == es[..k] + es[k..n];
    ReplayConcat(d, a, es[..k], es[k..n]);
    InitialVersionDoesNotMatter(d, ReplayAll(d, a, es[..k]).aggregate, k, es[k..n]);
  }

  /** Loading from a snapshot taken at version `k` equals full replay, for every maximum version from `k` on, exactly
      when the snapshot is faithful. */
  lemma SnapshotEqualsReplayExactlyWhenFaithful<S, P>(t: AggregateType<S, P>, newId: Guid, id: Guid,
                                                      stored: seq<CommittedEvent>, k: nat, a: Aggregate<S>)
    requires IsHistory(id, stored) && 1 <= k <= |stored|
    requires GetById(t, newId, id, stored, None, Some(k)) == Loaded(a)
    ensures SnapshotIsFaithful(t, a) <==>
      forall m: nat | k <= m :: GetById(t, newId, id, stored, Some(TakeSnapshot(t, a)), Some(m)) ==
                                GetById(t, newId, id, stored, None, Some(m))
  {
    if SnapshotIsFaithful(t, a) {
      forall m: nat | k <= m
        ensures GetById(t, newId, id, stored, Some(TakeSnapshot(t, a)), Some(m)) ==
                GetById(t, newId, id, stored, None, Some(m))
      {
        FaithfulSnapshotLoads(t, newId, id, stored, k, a, m);
      }
    } else {
      UnfaithfulSnapshotDiffers(t, newId, id, stored, k, a);
    }
  }

  /** An unfaithful snapshot shows at once, at its own version. */
  lemma UnfaithfulSnapshotDiffers<S, P>(t: AggregateType<S, P>, newId: Guid, id: Guid, stored: seq<CommittedEvent>,
                                        k: nat, a: Aggregate<S>)
    requires IsHistory(id, stored) && 1 <= k <= |stored|
    requires GetById(t, newId, id, stored, None, Some(k)) == Loaded(a) && !SnapshotIsFaithful(t, a)
    ensures GetById(t, newId, id, stored, Some(TakeSnapshot(t, a)), Some(k)) != Loaded(a)
  {
    FullLoad(t, newId, id, stored, k);
    ReplayVersions(t.dispatch, Create(t, id), stored[..k]);
    if t.supportsSnapshot {
      SnapshotReads(t, newId, id, stored, TakeSnapshot(t, a), k);
      assert stored[k..k] == [];
    } else {
      RejectedSnapshotLosesAggregate(t, newId, id, stored, k, t.create(a.state), k);
    }
  }

  // ----- The two ways to be unfaithful, concretely -----

  /** Handler 0 registers handler 1 on "open"; handler 1 counts every event it sees. */
  function Counting(h: HandlerId, state: int, e: Payload): Effect<int> {
    if h == 0 then Effect(state, if e == "open" then [1] else [], true) else Effect(state + 1, [], true)
  }

  function CountingType(supports: bool): AggregateType<int, int> {
    AggregateType(Counting, [0], 0, s => s, (_, p) => p, supports)
  }

  /** A handler registered by an event before the snapshot is gone after it: the states differ. */
  lemma SnapshotForgetsHandlers(newId: Guid, id: Guid)
    ensures var stored := [CommittedEvent(id, 1, "open"), CommittedEvent(id, 2, "use")];
      var snapshot := Snapshot(id, 1, 0);
      && GetById(CountingType(true), newId, id, stored, None, Some(1)) == Loaded(Aggregate(id, 1, 1, [0, 1], 0))
      && GetById(CountingType(true), newId, id, stored, None, Some(2)) == Loaded(Aggregate(id, 2, 2, [0, 1], 1))
      && GetById(CountingType(true), newId, id, stored, Some(snapshot), Some(2)) == Loaded(Aggregate(id, 2, 2, [0], 0))
  {
    CountingFullLoad(newId, id, CommittedEvent(id, 1, "open"), CommittedEvent(id, 2, "use"));
    CountingSnapshotLoad(newId, id, CommittedEvent(id, 1, "open"), CommittedEvent(id, 2, "use"));
  }

  lemma CountingFullLoad(newId: Guid, id: Guid, one: CommittedEvent, two: CommittedEvent)
    requires one == CommittedEvent(id, 1, "open") && two == CommittedEvent(id, 2, "use")
    ensures GetById(CountingType(true), newId, id, [one, two], None, Some(1)) == Loaded(Aggregate(id, 1, 1, [0, 1], 0))
    ensures GetById(CountingType(true), newId, id, [one, two], None, Some(2)) == Loaded(Aggregate(id, 2, 2, [0, 1], 1))
  {
    var t, stored := CountingType(true), [one, two];
    CountingReplays(id, one, two);
    assert stored[..1] == [one] && stored[..2] == [one, two];
    FullLoad(t, newId, id, stored, 1);
    FullLoad(t, newId, id, stored, 2);
  }

  lemma CountingReplays(id: Guid, one: CommittedEvent, two: CommittedEvent)
    requires one == CommittedEvent(id, 1, "open") && two == CommittedEvent(id, 2, "use")
    ensures var a := Create(CountingType(true), id);
      && ReplayAll(Counting, a, [one]) == Replaying(Aggregate(id, 0, 1, [0, 1], 0), None)
      && ReplayAll(Counting, a, [one, two]) == Replaying(Aggregate(id, 0, 2, [0, 1], 1), None)
  {
    var a := Create(CountingType(true), id);
    CountingOpens(a, one);
    ReplaySingle(Counting, a, one);
    assert [one] + [two] == [one, two];
    ReplayConcat(Counting, a, [one], [two]);
    CountingCounts(Aggregate(id, 0, 1, [0, 1], 0), two);
    ReplaySingle(Counting, Aggregate(id, 0, 1, [0, 1], 0), two);
  }

  lemma CountingSnapshotLoad(newId: Guid, id: Guid, one: CommittedEvent, two: CommittedEvent)
    requires one == CommittedEvent(id, 1, "open") && two == CommittedEvent(id, 2, "use")
    ensures GetById(CountingType(true), newId, id, [one, two], Some(Snapshot(id, 1, 0)), Some(2)) ==
            Loaded(Aggregate(id, 2, 2, [0], 0))
  {
    SnapshotLoad(CountingType(true), newId, id, [one, two], Snapshot(id, 1, 0), 2);
    assert [one, two][1..2] == [two];
    CountingForgot(Aggregate(id, 1, 1, [0], 0), two);
    ReplaySingle(Counting, Aggregate(id, 1, 1, [0], 0), two);
  }

  lemma ReplaySingle<S>(d: Dispatch<S>, a: Aggregate<S>, e: CommittedEvent)
    ensures ReplayAll(d, a, [e]) == ReplayOne(d, a, e)
  {
    assert [e][..0] == [] && ReplayAll(d, a, [e][..0]) == Replaying(a, None);
  }

  lemma CountingOpens(a: Aggregate<int>, e: CommittedEvent)
    requires a.handlers == [0] && e == CommittedEvent(a.id, a.currentVersion + 1, "open")
    ensures ReplayOne(Counting, a, e) == Replaying(a.(currentVersion := e.sequence, handlers := [0, 1]), None)
  {
    assert [0][..0] == [] && RunHandlers(Counting, a, [0][..0], "open") == Handling(a, false);
  }

  lemma CountingCounts(a: Aggregate<int>, e: CommittedEvent)
    requires a.handlers == [0, 1] && e == CommittedEvent(a.id, a.currentVersion + 1, "use")
    ensures ReplayOne(Counting, a, e) == Replaying(a.(currentVersion := e.sequence, state := a.state + 1), None)
  {
    assert [0, 1][..1] == [0] && [0][..0] == [];
    assert RunHandlers(Counting, a, [0][..0], "use") == Handling(a, false);
    assert RunHandlers(Counting, a, [0], "use") == Handling(a, true);
  }

  lemma CountingForgot(a: Aggregate<int>, e: CommittedEvent)
    requires a.handlers == [0] && e == CommittedEvent(a.id, a.currentVersion + 1, "use")
    ensures ReplayOne(Counting, a, e) == Replaying(a.(currentVersion := e.sequence), None)
  {
    assert [0][..0] == [] && RunHandlers(Counting, a, [0][..0], "use") == Handling(a, false);
  }

  /** A snapshot the validator rejects is skipped, but the events before it are still not read: nothing is loaded,
      or loading fails on the first number. */
  lemma RejectedSnapshotLosesAggregate<S, P>(t: AggregateType<S, P>, newId: Guid, id: Guid, stored: seq<CommittedEvent>,
                                             k: nat, payload: P, m: nat)
    requires IsHistory(id, stored) && 1 <= k <= |stored| && k <= m && !t.supportsSnapshot
    ensures GetById(t, newId, id, stored, Some(Snapshot(id, k, payload)), Some(m)) ==
            if Min(m, |stored|) == k then NoAggregate else Failed(OutOfSequence)
  {
    var tail := stored[k..Min(m, |stored|)];
    RejectedReads(t, newId, id, stored, k, payload, m);
    if k < Min(m, |stored|) {
      FirstOutOfSequence(t.dispatch, Create(t, id), tail);
    }
  }

  lemma RejectedReads<S, P>(t: AggregateType<S, P>, newId: Guid, id: Guid, stored: seq<CommittedEvent>,
                            k: nat, payload: P, m: nat)
    requires IsHistory(id, stored) && 1 <= k <= |stored| && k <= m && !t.supportsSnapshot
    ensures GetById(t, newId, id, stored, Some(Snapshot(id, k, payload)), Some(m)) ==
            FromScratch(t, newId, StreamOf(id, stored[k..Min(m, |stored|)]))
  {
    var tail := stored[k..Min(m, |stored|)];
    ReadsAfterSnapshot(t, newId, id, stored, Snapshot(id, k, payload), m);
    RejectedIsIgnored(t, newId, id, Some(Snapshot(id, k, payload)), tail);
  }

  lemma RejectedIsIgnored<S, P>(t: AggregateType<S, P>, newId: Guid, id: Guid, snapshot: Option<Snapshot<P>>,
                                es: seq<CommittedEvent>)
    requires IsStream(id, es) && !t.supportsSnapshot
    ensures LoadRead(t, newId, id, snapshot, es) == FromScratch(t, newId, StreamOf(id, es))
  {
  }

  lemma FirstOutOfSequence<S>(d: Dispatch<S>, a: Aggregate<S>, es: seq<CommittedEvent>)
    requires es != [] && es[0].sourceId == a.id && es[0].sequence != a.currentVersion + 1
    ensures ReplayAll(d, a, es).error == Some(OutOfSequence)
  {
    ReplaySingle(d, a, es[0]);
    assert es == [es[0]] + es[1..];
    ReplayConcat(d, a, [es[0]], es[1..]);
  }
}
