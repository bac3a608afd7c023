/** UnitOfWork over the event store: load aggregates, let them apply events, accept, and load again. */
module UnitsOfWork {
  import opened Common
  import opened EventStreams
  import opened MongoStore
  import opened MongoRace
  import opened MongoUninterrupted
  import opened MongoUnits
  import opened EventSourcing
  import opened Loading
  import opened LoadedReplays

  // ----- One aggregate of a unit of work -----

  /** What the store holds of a source is its complete history, and its version says so. */
  ghost predicate Complete(db: Db, id: Guid) {
    var stored := StoredEvents(db.events, id);
    IsHistory(id, stored) && GetVersion(db, id) == if stored == [] then None else Some(|stored|)
  }

  /** The aggregate a command works on: newly created, or loaded up to any revision, with any faithful snapshot. */
  ghost predicate WorksOn<S(!new), P>(t: AggregateType<S, P>, newId: Guid, db: Db, latest: Option<Snapshot<P>>,
                                      revision: Option<int>, a: Aggregate<S>)
  {
    var stored := StoredEvents(db.events, a.id);
    || a == Create(t, a.id)
    || (FaithfulLatest(t, newId, a.id, stored, latest) &&
        GetById(t, newId, a.id, stored, latest, revision) == Loaded(a))
  }

  /** It is the replay of as many stored events as its initial version says, whatever else is stored. */
  lemma WorkIsReplay<S(!new), P>(t: AggregateType<S, P>, newId: Guid, db: Db, latest: Option<Snapshot<P>>,
                                 revision: Option<int>, a: Aggregate<S>)
    requires IsAscending(a.id, StoredEvents(db.events, a.id)) && WorksOn(t, newId, db, latest, revision, a)
    ensures IsOnTop(t, StoredEvents(db.events, a.id), a)
  {
    var stored := StoredEvents(db.events, a.id);
    if a == Create(t, a.id) {
      assert stored[..0] == [];
    } else {
      LoadedIsReplay(t, newId, a.id, stored, latest, revision, a);
    }
  }

  ghost predicate IsOnTop<S, P>(t: AggregateType<S, P>, stored: seq<CommittedEvent>, a: Aggregate<S>) {
    a.initialVersion >= 0 && IsReplayOf(t, a.id, stored, a, a.initialVersion)
  }

  /** What such an aggregate emits, calls that threw or not, is one batch on top of what it was loaded from; and the
      batch has a gap exactly when something was emitted after a call that threw. */
  lemma EmittedIsBatch<S>(d: Dispatch<S>, a: Aggregate<S>, es: seq<Payload>)
    requires 0 <= a.initialVersion == a.currentVersion
    ensures var live := ApplyAll(d, a, es);
      && |live.emitted| <= |es| && (|live.emitted| == |es| <==> AllHandled(live.handled))
      && live.aggregate.currentVersion == a.currentVersion + |es|
      && (IsGapless(live.emitted, a.initialVersion) <==> HandledFirst(live.handled))
      && (forall i | 0 <= i < |live.emitted| :: live.emitted[i].sequence <= live.aggregate.currentVersion)
      && (live.emitted != [] ==> IsBatch(live.emitted) && live.emitted[0].sourceId == a.id == live.aggregate.id &&
                                 live.emitted[0].initialVersion == a.initialVersion)
  {
    EmittedAscend(d, a, es);
    EveryCallMovesTheVersion(d, a, es);
    GapsExactlyAfterExceptions(d, a, es);
  }

  /** Every other source is as before. */
  ghost predicate OnlyChanges(source: Guid, db: Db, db': Db) {
    forall id | id != source ::
      StoredEvents(db'.events, id) == StoredEvents(db.events, id) && GetVersion(db', id) == GetVersion(db, id)
  }

  lemma OneBatchIsOneGroup(db: Db, emitted: seq<UncommittedEvent>)
    requires IsBatch(emitted)
    ensures Store(db, emitted) == StoreGroup(db, emitted)
  {
    SingleSourceIsOneGroup(db, emitted);
  }

  /** What a store did with a batch for a source whose history was complete: it went in exactly when it was on top of
      all of it, and left the history complete exactly when it had no gap. */
  ghost predicate AddsBatch(db: Db, r: StoreResult, source: Guid, initialVersion: int, emitted: seq<UncommittedEvent>,
                            gapless: bool)
  {
    var stored := StoredEvents(db.events, source);
    && (r.outcome == Stored <==> initialVersion == |stored|)
    && (r.outcome != Stored ==> r.db == db)
    && (r.outcome == Stored ==>
          && StoredEvents(r.db.events, source) == stored + AllCommitted(emitted)
          && GetVersion(r.db, source) == Some(|stored| + |emitted|) && OnlyChanges(source, db, r.db)
          && (Complete(r.db, source) <==> gapless))
  }

  lemma StoreAddsBatch(db: Db, emitted: seq<UncommittedEvent>, r: StoreResult)
    requires IsBatch(emitted) && Complete(db, emitted[0].sourceId) && r == StoreGroup(db, emitted)
    requires emitted[0].initialVersion <= CountOf(db, emitted[0].sourceId)
    requires CountOf(db, emitted[0].sourceId) + |emitted| <= LONG_MAX
    ensures AddsBatch(db, r, emitted[0].sourceId, emitted[0].initialVersion, emitted,
                      IsGapless(emitted, emitted[0].initialVersion))
  {
    StoredGroup(db, emitted, emitted[0].sourceId);
    HistoryGrowsExactlyWithoutGap(emitted[0].sourceId, StoredEvents(db.events, emitted[0].sourceId), emitted);
    if r.outcome == Stored {
      OthersStay(db, emitted, r);
    }
  }

  lemma OthersStay(db: Db, emitted: seq<UncommittedEvent>, r: StoreResult)
    requires IsBatch(emitted) && r == StoreGroup(db, emitted) && r.outcome == Stored
    ensures OnlyChanges(emitted[0].sourceId, db, r.db)
  {
    forall id | id != emitted[0].sourceId
      ensures StoredEvents(r.db.events, id) == StoredEvents(db.events, id)
      ensures GetVersion(r.db, id) == GetVersion(db, id)
    {
      StoredGroup(db, emitted, id);
    }
  }

  lemma HistoryGrowsExactlyWithoutGap(id: Guid, stored: seq<CommittedEvent>, emitted: seq<UncommittedEvent>)
    requires IsHistory(id, stored) && |stored| + |emitted| <= LONG_MAX
    requires forall i | 0 <= i < |emitted| :: emitted[i].sourceId == id
    ensures IsHistory(id, stored + AllCommitted(emitted)) <==> IsGapless(emitted, |stored|)
  {
    var longer := stored + AllCommitted(emitted);
    assert forall i | 0 <= i < |emitted| :: longer[|stored| + i] == Committed(emitted[i]);
  }

  /** Load or create, apply, store: the store takes the events exactly when the aggregate was up to date, touches no
      other source, and leaves the history complete exactly when nothing was emitted after a call that threw. */
  lemma StoreAfterLoad<S(!new), P>(t: AggregateType<S, P>, newId: Guid, db: Db, latest: Option<Snapshot<P>>,
                                   revision: Option<int>, a: Aggregate<S>, es: seq<Payload>, live: Live<S>)
    requires Complete(db, a.id) && WorksOn(t, newId, db, latest, revision, a) && live == ApplyAll(t.dispatch, a, es)
    requires live.emitted != [] && CountOf(db, a.id) + |es| <= LONG_MAX
    ensures AddsBatch(db, Store(db, live.emitted), a.id, a.initialVersion, live.emitted, HandledFirst(live.handled))
  {
    WorkIsReplay(t, newId, db, latest, revision, a);
    StoreOnTop(t, db, a, es, live);
  }

  lemma StoreOnTop<S, P>(t: AggregateType<S, P>, db: Db, a: Aggregate<S>, es: seq<Payload>, live: Live<S>)
    requires Complete(db, a.id) && IsOnTop(t, StoredEvents(db.events, a.id), a) && live == ApplyAll(t.dispatch, a, es)
    requires live.emitted != [] && CountOf(db, a.id) + |es| <= LONG_MAX
    ensures AddsBatch(db, Store(db, live.emitted), a.id, a.initialVersion, live.emitted, HandledFirst(live.handled))
  {
    EmittedIsBatch(t.dispatch, a, es);
    OneBatchIsOneGroup(db, live.emitted);
    StoreAddsBatch(db, live.emitted, StoreGroup(db, live.emitted));
  }

  /** Handles one kind of event only. */
  function Picky(h: HandlerId, state: int, e: Payload): Effect<int> {
    Effect(state, [], e == "known")
  }

  function PickyType(): AggregateType<int, int> {
    AggregateType(Picky, [0], 0, s => s, (_, p) => p, true)
  }

  /** It does happen: a new aggregate whose first call throws and whose second does not stores event 2 alone, and cannot
      be loaded afterwards. */
  lemma SwallowedExceptionLeavesGap(id: Guid, newId: Guid, live: Live<int>)
    requires live == ApplyAll(Picky, Create(PickyType(), id), ["unknown", "known"])
    ensures live.handled == [false, true] && live.emitted == [UncommittedEvent(id, 2, 0, "known")]
    ensures var r := Store(EMPTY_DB, live.emitted);
      && r.outcome == Stored && StoredEvents(r.db.events, id) == [CommittedEvent(id, 2, "known")]
      && GetById(PickyType(), newId, id, StoredEvents(r.db.events, id), None, None) == Failed(OutOfSequence)
  {
    PickyCalls(id);
    EventTwoIsStored(id, live.emitted);
    EventTwoAlone(PickyType(), newId, id, CommittedEvent(id, 2, "known"));
  }

  lemma EventTwoIsStored(id: Guid, emitted: seq<UncommittedEvent>)
    requires emitted == [UncommittedEvent(id, 2, 0, "known")]
    ensures var r := Store(EMPTY_DB, emitted);
      r.outcome == Stored && StoredEvents(r.db.events, id) == [CommittedEvent(id, 2, "known")]
  {
    OneBatchIsOneGroup(EMPTY_DB, emitted);
    StoredGroup(EMPTY_DB, emitted, id);
    assert AllCommitted(emitted) == [CommittedEvent(id, 2, "known")];
  }

  lemma PickyCalls(id: Guid)
    ensures var live := ApplyAll(Picky, Create(PickyType(), id), ["unknown", "known"]);
      live.handled == [false, true] && live.emitted == [UncommittedEvent(id, 2, 0, "known")]
  {
    var a := Create(PickyType(), id);
    PickyHandles(a.(currentVersion := 1), "unknown");
    PickyHandles(a.(currentVersion := 2), "known");
    assert ["unknown"][..0] == [] && ["unknown", "known"][..1] == ["unknown"];
    assert ApplyAll(Picky, a, ["unknown"][..0]) == Live(a, [], []);
    assert ApplyAll(Picky, a, ["unknown"]) == Live(a.(currentVersion := 1), [], [false]);
  }

  lemma PickyHandles(a: Aggregate<int>, e: Payload)
    requires a.handlers == [0]
    ensures Handle(Picky, a, e) == Handling(a, e == "known")
  {
    assert [0][..0] == [] && RunHandlers(Picky, a, [0][..0], e) == Handling(a, false);
  }

  lemma EventTwoAlone<S, P>(t: AggregateType<S, P>, newId: Guid, id: Guid, e: CommittedEvent)
    requires e.sourceId == id && e.sequence == 2
    ensures GetById(t, newId, id, [e], None, None) == Failed(OutOfSequence)
  {
    RangeIsStretch([e], 0, 1, LONG_MIN, LONG_MAX);
    OrderingAnyArrangement([e], [e]);
    assert [e][0..1] == [e];
    LoadsWhatIsRead(t, newId, id, [e], None, None, [e]);
    FirstOutOfSequence(t.dispatch, Create(t, id), [e]);
  }

  // ----- Loading it again -----

  /** Loading again gives exactly the live aggregate with its changes accepted, id, state, handlers and both versions,
      exactly when no call threw. */
  lemma StoreThenLoad<S(!new), P>(t: AggregateType<S, P>, newId: Guid, otherId: Guid, db: Db,
                                  latest: Option<Snapshot<P>>, revision: Option<int>, a: Aggregate<S>, es: seq<Payload>,
                                  live: Live<S>)
    requires Complete(db, a.id) && WorksOn(t, newId, db, latest, revision, a) && live == ApplyAll(t.dispatch, a, es)
    requires live.emitted != [] && CountOf(db, a.id) + |es| <= LONG_MAX && a.initialVersion == CountOf(db, a.id)
    ensures var stored := StoredEvents(Store(db, live.emitted).db.events, a.id);
      var reloaded := GetById(t, otherId, a.id, stored, None, None);
      reloaded == Loaded(AcceptChanges(live.aggregate)) <==> AllHandled(live.handled)
  {
    StoreAfterLoad(t, newId, db, latest, revision, a, es, live);
    WorkIsReplay(t, newId, db, latest, revision, a);
    ReloadsExactlyWithoutExceptions(t, otherId, a, StoredEvents(db.events, a.id), es);
  }

  lemma ReloadsExactlyWithoutExceptions<S(!new), P>(t: AggregateType<S, P>, otherId: Guid, a: Aggregate<S>,
                                                    stored: seq<CommittedEvent>, es: seq<Payload>)
    requires IsHistory(a.id, stored) && IsOnTop(t, stored, a) && a.initialVersion == |stored|
    requires ApplyAll(t.dispatch, a, es).emitted != [] && |stored| + |es| <= LONG_MAX
    ensures var live := ApplyAll(t.dispatch, a, es);
      var longer := stored + AllCommitted(live.emitted);
      var reloaded := GetById(t, otherId, a.id, longer, None, None);
      reloaded == Loaded(AcceptChanges(live.aggregate)) <==> AllHandled(live.handled)
  {
    var live := ApplyAll(t.dispatch, a, es);
    EmittedIsBatch(t.dispatch, a, es);
    if AllHandled(live.handled) {
      Reloads(t, otherId, a, stored, es);
    } else {
      StoredStaysAscending(t, stored, a, es);
      DoesNotReload(t, otherId, a.id, stored + AllCommitted(live.emitted), AcceptChanges(live.aggregate));
    }
  }

  /** An aggregate whose version is beyond what is stored cannot have been loaded. */
  lemma DoesNotReload<S(!new), P>(t: AggregateType<S, P>, newId: Guid, id: Guid, stored: seq<CommittedEvent>,
                                  a: Aggregate<S>)
    requires IsAscending(id, stored) && a.currentVersion > |stored|
    ensures GetById(t, newId, id, stored, None, None) != Loaded(a)
  {
    if GetById(t, newId, id, stored, None, None) == Loaded(a) {
      LoadedFromScratch(t, newId, id, stored, None, a);
    }
  }

  lemma StoredStaysAscending<S, P>(t: AggregateType<S, P>, stored: seq<CommittedEvent>, a: Aggregate<S>,
                                   es: seq<Payload>)
    requires IsHistory(a.id, stored) && IsOnTop(t, stored, a) && a.initialVersion == |stored|
    ensures var live := ApplyAll(t.dispatch, a, es);
      var longer := stored + AllCommitted(live.emitted);
      && IsAscending(a.id, longer)
      && forall i | 0 <= i < |longer| :: longer[i].sequence <= live.aggregate.currentVersion
  {
    EmittedAscend(t.dispatch, a, es);
    EveryCallMovesTheVersion(t.dispatch, a, es);
  }

  lemma Reloads<S, P>(t: AggregateType<S, P>, otherId: Guid, a: Aggregate<S>, stored: seq<CommittedEvent>,
                      es: seq<Payload>)
    requires IsHistory(a.id, stored) && IsReplayOf(t, a.id, stored, a, |stored|)
    requires es != [] && AllHandled(ApplyAll(t.dispatch, a, es).handled) && |stored| + |es| <= LONG_MAX
    ensures var live := ApplyAll(t.dispatch, a, es);
      GetById(t, otherId, a.id, stored + AllCommitted(live.emitted), None, None) ==
        Loaded(AcceptChanges(live.aggregate))
  {
    var live := ApplyAll(t.dispatch, a, es);
    var longer := stored + AllCommitted(live.emitted);
    LiveEqualsReplay(t.dispatch, a, es);
    HistoryGrowsExactlyWithoutGap(a.id, stored, live.emitted);
    assert stored[..|stored|] == stored && longer[..|longer|] == longer;
    ReplayOnTop(t.dispatch, Create(t, a.id), a, stored, AllCommitted(live.emitted), live.aggregate);
    FullLoad(t, otherId, a.id, longer, LONG_MAX);
    SameMaximum(t, otherId, a.id, longer, None, None);
  }

  lemma ReplayOnTop<S>(d: Dispatch<S>, start: Aggregate<S>, a: Aggregate<S>, stored: seq<CommittedEvent>,
                       more: seq<CommittedEvent>, live: Aggregate<S>)
    requires ReplayAll(d, start, stored) == Replaying(a.(initialVersion := start.initialVersion), None)
    requires ReplayAll(d, a, more) == Replaying(live, None)
    ensures ReplayAll(d, start, stored + more) == Replaying(live.(initialVersion := start.initialVersion), None)
  {
    ReplayConcat(d, start, stored, more);
    InitialVersionDoesNotMatter(d, a, start.initialVersion, more);
  }

  // ----- The snapshot a unit of work takes of its own aggregate -----

  /** It loads, at the version the aggregate had. */
  lemma OwnSnapshotLoads<S, P>(t: AggregateType<S, P>, otherId: Guid, stored: seq<CommittedEvent>, a: Aggregate<S>,
                               es: seq<Payload>, live: Live<S>, snapshot: Snapshot<P>)
    requires IsHistory(a.id, stored) && IsOnTop(t, stored, a) && a.initialVersion == |stored| && t.supportsSnapshot
    requires live == ApplyAll(t.dispatch, a, es) && |stored| + |es| < LONG_MAX
    requires snapshot == TakeSnapshot(t, live.aggregate)
    ensures GetById(t, otherId, a.id, stored + AllCommitted(live.emitted), Some(snapshot), None) ==
            Loaded(Restored(t, otherId, snapshot))
  {
    StoredStaysAscending(t, stored, a, es);
    EmittedAscend(t.dispatch, a, es);
    EveryCallMovesTheVersion(t.dispatch, a, es);
    LoadsSnapshotItself(t, otherId, a.id, stored + AllCommitted(live.emitted), snapshot);
  }

  lemma LoadsSnapshotItself<S, P>(t: AggregateType<S, P>, newId: Guid, id: Guid, stored: seq<CommittedEvent>,
                                  snapshot: Snapshot<P>)
    requires t.supportsSnapshot && snapshot.sourceId == id && snapshot.version < LONG_MAX
    requires forall i | 0 <= i < |stored| :: stored[i].sequence <= snapshot.version
    ensures GetById(t, newId, id, stored, Some(snapshot), None) == Loaded(Restored(t, newId, snapshot))
  {
    NothingRead(stored, snapshot.version + 1, LONG_MAX);
    LoadsEmptyTail(t, newId, snapshot);
    LoadsWhatIsRead(t, newId, id, stored, Some(snapshot), None, []);
  }

  /** It restores what loading without it gives exactly when no call threw. */
  lemma OwnSnapshotIsFaithfulExactlyWithoutExceptions<S(!new), P>(
      t: AggregateType<S, P>, newId: Guid, a: Aggregate<S>, stored: seq<CommittedEvent>, es: seq<Payload>,
      live: Live<S>)
    requires IsHistory(a.id, stored) && IsOnTop(t, stored, a) && a.initialVersion == |stored|
    requires live == ApplyAll(t.dispatch, a, es) && live.emitted != [] && |stored| + |es| <= LONG_MAX
    requires SnapshotIsFaithful(t, live.aggregate)
    ensures var longer := stored + AllCommitted(live.emitted);
      FaithfulLatest(t, newId, a.id, longer, Some(TakeSnapshot(t, live.aggregate))) <==> AllHandled(live.handled)
  {
    var longer, snapshot := stored + AllCommitted(live.emitted), TakeSnapshot(t, live.aggregate);
    LiveCounts(t.dispatch, a, es, live);
    EmittedIsBatch(t.dispatch, a, es);
    if AllHandled(live.handled) {
      Reloads(t, newId, a, stored, es);
      assert Restored(t, newId, snapshot) == AcceptChanges(live.aggregate);
    } else if FaithfulLatest(t, newId, a.id, longer, Some(snapshot)) {
      StoredStaysAscending(t, stored, a, es);
      var _, k := SnapshotOriginal(t, newId, a.id, longer, Some(snapshot));
    }
  }

  /** Right after the store, events on top of it are accepted exactly when no call threw: otherwise its version is ahead
      of the recorded one, until other writers have moved that to it. */
  lemma OwnSnapshotIsWritableExactlyWithoutExceptions<S, P>(
      t: AggregateType<S, P>, otherId: Guid, db: Db, a: Aggregate<S>, es: seq<Payload>, live: Live<S>,
      db': Db, emitted: seq<UncommittedEvent>, more: seq<Payload>)
    requires Complete(db, a.id) && IsOnTop(t, StoredEvents(db.events, a.id), a) && a.initialVersion == CountOf(db, a.id)
    requires live == ApplyAll(t.dispatch, a, es) && live.emitted != [] && CountOf(db, a.id) + |es| < LONG_MAX
    requires db' == Store(db, live.emitted).db
    requires emitted == ApplyAll(t.dispatch, Restored(t, otherId, TakeSnapshot(t, live.aggregate)), more).emitted != []
    ensures Store(db', emitted).outcome == Stored <==> AllHandled(live.handled)
  {
    RecordedAfterStore(t, db, a, es, live);
    WritesOnOwnSnapshot(t, otherId, db', a, es, live, emitted, more);
  }

  lemma RecordedAfterStore<S, P>(t: AggregateType<S, P>, db: Db, a: Aggregate<S>, es: seq<Payload>, live: Live<S>)
    requires Complete(db, a.id) && IsOnTop(t, StoredEvents(db.events, a.id), a) && a.initialVersion == CountOf(db, a.id)
    requires live == ApplyAll(t.dispatch, a, es) && live.emitted != []
    ensures GetVersion(Store(db, live.emitted).db, a.id) == Some(a.initialVersion + |live.emitted|)
  {
    EmittedIsItsBatch(t.dispatch, a, es, live.emitted);
    RecordedAfterBatch(db, a.id, live.emitted);
  }

  lemma EmittedIsItsBatch<S>(d: Dispatch<S>, a: Aggregate<S>, es: seq<Payload>, emitted: seq<UncommittedEvent>)
    requires 0 <= a.initialVersion == a.currentVersion && emitted == ApplyAll(d, a, es).emitted != []
    ensures IsBatch(emitted) && emitted[0].sourceId == a.id && emitted[0].initialVersion == a.initialVersion
  {
    EmittedIsBatch(d, a, es);
  }

  lemma RecordedAfterBatch(db: Db, id: Guid, emitted: seq<UncommittedEvent>)
    requires IsBatch(emitted) && emitted[0].sourceId == id && Complete(db, id)
    requires emitted[0].initialVersion == CountOf(db, id)
    ensures GetVersion(Store(db, emitted).db, id) == Some(CountOf(db, id) + |emitted|)
  {
    assert Accepts(db, emitted);
    OneBatchIsStored(db, emitted);
  }

  lemma WritesOnOwnSnapshot<S, P>(t: AggregateType<S, P>, otherId: Guid, db': Db, a: Aggregate<S>, es: seq<Payload>,
                                  live: Live<S>, emitted: seq<UncommittedEvent>, more: seq<Payload>)
    requires 0 <= a.initialVersion == a.currentVersion && live == ApplyAll(t.dispatch, a, es)
    requires GetVersion(db', a.id) == Some(a.initialVersion + |live.emitted|)
    requires emitted == ApplyAll(t.dispatch, Restored(t, otherId, TakeSnapshot(t, live.aggregate)), more).emitted != []
    ensures Store(db', emitted).outcome == Stored <==> AllHandled(live.handled)
  {
    LiveCounts(t.dispatch, a, es, live);
    WritesOnSnapshot(t, otherId, db', TakeSnapshot(t, live.aggregate), more, emitted);
  }

  lemma LiveCounts<S>(d: Dispatch<S>, a: Aggregate<S>, es: seq<Payload>, live: Live<S>)
    requires 0 <= a.initialVersion == a.currentVersion && live == ApplyAll(d, a, es)
    ensures live.aggregate.id == a.id && live.aggregate.currentVersion == a.currentVersion + |es|
    ensures |live.emitted| == |es| <==> AllHandled(live.handled)
  {
    EmittedAscend(d, a, es);
    EmittedIsBatch(d, a, es);
  }

  /** What a restored aggregate emits is stored exactly when the recorded version is that of its snapshot. */
  lemma WritesOnSnapshot<S, P>(t: AggregateType<S, P>, newId: Guid, db: Db, snapshot: Snapshot<P>, more: seq<Payload>,
                               emitted: seq<UncommittedEvent>)
    requires snapshot.version >= 0 && GetVersion(db, snapshot.sourceId).Some?
    requires emitted == ApplyAll(t.dispatch, Restored(t, newId, snapshot), more).emitted != []
    ensures Store(db, emitted).outcome == Stored <==> GetVersion(db, snapshot.sourceId) == Some(snapshot.version)
  {
    EmittedIsBatch(t.dispatch, Restored(t, newId, snapshot), more);
    BatchIsAccepted(db, emitted);
  }

  lemma BatchIsAccepted(db: Db, emitted: seq<UncommittedEvent>)
    requires IsBatch(emitted)
    ensures Store(db, emitted).outcome == Stored <==> Accepts(db, emitted)
  {
    OneBatchIsOneGroup(db, emitted);
    StoredGroup(db, emitted, emitted[0].sourceId);
  }

  // ----- Units of work among concurrent writers -----

  /** Nothing stored is ever removed or reordered. */
  lemma {:induction false} StoredOnlyGrows(s: State, steps: seq<Step>, id: Guid)
    ensures StoredEvents(s.db.events, id) <= StoredEvents(Run(s, steps).db.events, id)
  {
    if steps != [] {
      var before := Run(s, steps[..|steps| - 1]);
      StoredOnlyGrows(s, steps[..|steps| - 1], id);
      StepOnlyGrows(before, steps[|steps| - 1], id);
    }
  }

  /** One aggregate of a unit of work: at which act of the run and how it was loaded, and what it was told to apply. */
  datatype Work<!S, !P> = Work(t: AggregateType<S, P>, newId: Guid, latest: Option<Snapshot<P>>, revision: Option<int>,
                               loadedAt: nat, a: Aggregate<S>, es: seq<Payload>)

  function LiveOf<S, P>(work: Work<S, P>): Live<S> {
    ApplyAll(work.t.dispatch, work.a, work.es)
  }

  /** It was newly created, or it is what loading gave at that act, through a snapshot saved before, or none. */
  ghost predicate IsWork<S(!new), P>(acts: seq<Act>, id: Guid, work: Work<S, P>) {
    || work.a == Create(work.t, id)
    || (&& work.loadedAt < |acts| && acts[work.loadedAt] == Load(id, VersionOf(work.latest), Maximum(work.revision))
        && IsLoad(AfterAll(NewSystem(), acts[..work.loadedAt]), id, work))
  }

  ghost predicate IsLoad<S(!new), P>(s: System, id: Guid, work: Work<S, P>) {
    var stored := StoredEvents(s.race.db.events, id);
    && IsSnapshotOf(id, work.latest) && (work.latest.Some? ==> work.latest.value.version in SavedOf(s, id))
    && GetById(work.t, work.newId, id, stored, work.latest, work.revision) == Loaded(work.a)
  }

  /** The stream interleaves, in any way, what several aggregates emitted, one aggregate a source, each loaded at its
      own time of the run; the snapshots are of the versions they ended with. */
  ghost predicate IsUnitOfWork<S(!new), P>(acts: seq<Act>, works: map<Guid, Work<S, P>>, unit: Unit) {
    && (forall id | id in works :: IsWork(acts, id, works[id]))
    && (forall e | e in unit.stream :: e.sourceId in works)
    && (forall id | id in works :: OfSource(unit.stream, id) == LiveOf(works[id]).emitted)
    && (forall id | id in unit.snapshots ::
          && id in works && LiveOf(works[id]).emitted != []
          && unit.snapshots[id] == LiveOf(works[id]).aggregate.currentVersion)
  }

  lemma LoadIsKept(s: System, id: Guid, n: int, step: Act)
    requires n in LoadedOf(s, id)
    ensures n in LoadedOf(After(s, step), id)
  {
  }

  lemma {:induction false} LoadsAreKept(acts: seq<Act>, k: nat, id: Guid, n: int)
    requires k <= |acts| && n in LoadedOf(AfterAll(NewSystem(), acts[..k]), id)
    ensures n in LoadedOf(AfterAll(NewSystem(), acts), id)
    decreases |acts|
  {
    if k == |acts| {
      assert acts[..k] == acts;
    } else {
      var front := acts[..|acts| - 1];
      assert front[..k] == acts[..k];
      LoadsAreKept(front, k, id, n);
      LoadIsKept(AfterAll(NewSystem(), front), id, n, acts[|acts| - 1]);
    }
  }

  lemma LoadIsNoted<S(!new), P>(s: System, id: Guid, work: Work<S, P>)
    requires IsLoad(s, id, work)
    ensures work.a.initialVersion in LoadedOf(After(s, Load(id, VersionOf(work.latest), Maximum(work.revision))), id)
    ensures work.a.id == id && 1 <= work.a.initialVersion == work.a.currentVersion
  {
    LoadedHasVersion(work.t, work.newId, id, StoredEvents(s.race.db.events, id), work.latest, work.revision, work.a);
  }

  lemma AfterNext(acts: seq<Act>, k: nat)
    requires k < |acts|
    ensures AfterAll(NewSystem(), acts[..k + 1]) == After(AfterAll(NewSystem(), acts[..k]), acts[k])
  {
    assert acts[..k + 1][..k] == acts[..k];
  }

  lemma LoadIsNotedInRun<S(!new), P>(acts: seq<Act>, id: Guid, work: Work<S, P>)
    requires work.loadedAt < |acts| && acts[work.loadedAt] == Load(id, VersionOf(work.latest), Maximum(work.revision))
    requires IsLoad(AfterAll(NewSystem(), acts[..work.loadedAt]), id, work)
    ensures work.a.initialVersion in LoadedOf(AfterAll(NewSystem(), acts[..work.loadedAt + 1]), id)
    ensures work.a.id == id && 1 <= work.a.initialVersion == work.a.currentVersion
  {
    LoadIsNoted(AfterAll(NewSystem(), acts[..work.loadedAt]), id, work);
    AfterNext(acts, work.loadedAt);
  }

  lemma WorkVersion<S(!new), P>(acts: seq<Act>, id: Guid, work: Work<S, P>)
    requires IsWork(acts, id, work)
    ensures work.a.id == id && 0 <= work.a.initialVersion == work.a.currentVersion
    ensures work.a.initialVersion == 0 || work.a.initialVersion in LoadedOf(AfterAll(NewSystem(), acts), id)
  {
    if work.a != Create(work.t, id) {
      LoadIsNotedInRun(acts, id, work);
      LoadsAreKept(acts, work.loadedAt + 1, id, work.a.initialVersion);
    }
  }

  lemma WorkIsBatch<S(!new), P>(acts: seq<Act>, id: Guid, work: Work<S, P>)
    requires IsWork(acts, id, work) && LiveOf(work).emitted != []
    ensures var live := LiveOf(work);
      && IsBatch(live.emitted) && live.emitted[0].initialVersion == work.a.initialVersion
      && live.aggregate.currentVersion >= live.emitted[|live.emitted| - 1].sequence
      && (IsGapless(live.emitted, work.a.initialVersion) <==> HandledFirst(live.handled))
      && (live.aggregate.currentVersion == NewVersion(live.emitted) <==> AllHandled(live.handled))
  {
    WorkVersion(acts, id, work);
    EmittedIsBatch(work.t.dispatch, work.a, work.es);
  }

  /** What MayBegin asks of one source. */
  ghost predicate MayBring(s: System, id: Guid, group: seq<UncommittedEvent>) {
    IsBatch(group) && (group[0].initialVersion == 0 || group[0].initialVersion in LoadedOf(s, id))
  }

  lemma WorkMayBring<S(!new), P>(acts: seq<Act>, works: map<Guid, Work<S, P>>, unit: Unit, id: Guid)
    requires IsUnitOfWork(acts, works, unit) && id in works && OfSource(unit.stream, id) != []
    ensures MayBring(AfterAll(NewSystem(), acts), id, OfSource(unit.stream, id))
    ensures id in unit.snapshots ==>
      unit.snapshots[id] >= OfSource(unit.stream, id)[|OfSource(unit.stream, id)| - 1].sequence
  {
    WorkIsBatch(acts, id, works[id]);
    WorkVersion(acts, id, works[id]);
  }

  lemma SourcesBegin(s: System, unit: Unit)
    requires forall e | e in unit.stream :: MayBring(s, e.sourceId, OfSource(unit.stream, e.sourceId))
    requires forall id | id in unit.snapshots ::
      && OfSource(unit.stream, id) != []
      && unit.snapshots[id] >= OfSource(unit.stream, id)[|OfSource(unit.stream, id)| - 1].sequence
    ensures MayBegin(s, unit)
  {
    assert forall i | 0 <= i < |unit.stream| :: unit.stream[i] in unit.stream;
  }

  /** Whatever a unit of work loaded, at any points of any concurrent run, through whatever snapshots, and whatever it
      then applied, some calls throwing or not: it is one that may begin. */
  lemma LoadedWorkMayBegin<S(!new), P>(acts: seq<Act>, works: map<Guid, Work<S, P>>, unit: Unit)
    requires IsUnitOfWork(acts, works, unit)
    ensures MayBegin(AfterAll(NewSystem(), acts), unit)
  {
    forall e | e in unit.stream
      ensures MayBring(AfterAll(NewSystem(), acts), e.sourceId, OfSource(unit.stream, e.sourceId))
    {
      SourceMembers(unit.stream, e.sourceId, e);
      WorkMayBring(acts, works, unit, e.sourceId);
    }
    forall id | id in unit.snapshots
      ensures OfSource(unit.stream, id) != []
      ensures unit.snapshots[id] >= OfSource(unit.stream, id)[|OfSource(unit.stream, id)| - 1].sequence
    {
      WorkMayBring(acts, works, unit, id);
    }
    SourcesBegin(AfterAll(NewSystem(), acts), unit);
  }

  /** Its snapshots are safe exactly when no aggregate it takes one of had calls that threw after its last event, and
      only there. */
  lemma SafeExactlyWithoutTrailingExceptions<S(!new), P>(acts: seq<Act>, works: map<Guid, Work<S, P>>, unit: Unit)
    requires IsUnitOfWork(acts, works, unit)
    ensures SafeUnit(unit) <==> forall id | id in unit.snapshots ::
      HandledFirst(LiveOf(works[id]).handled) ==> AllHandled(LiveOf(works[id]).handled)
  {
    forall id | id in unit.snapshots
      ensures SafeSnapshot(OfSource(unit.stream, id), unit.snapshots[id]) <==>
              (HandledFirst(LiveOf(works[id]).handled) ==> AllHandled(LiveOf(works[id]).handled))
    {
      WorkIsBatch(acts, id, works[id]);
    }
  }

  /** It leaves no gap exactly when none of its aggregates emitted anything after a call that threw. */
  lemma GaplessExactlyWithoutEventsAfterExceptions<S(!new), P>(acts: seq<Act>, works: map<Guid, Work<S, P>>, unit: Unit)
    requires IsUnitOfWork(acts, works, unit)
    ensures GaplessStream(unit.stream) <==> forall id | id in works && LiveOf(works[id]).emitted != [] ::
      HandledFirst(LiveOf(works[id]).handled)
  {
    forall id | id in works && LiveOf(works[id]).emitted != []
      ensures exists i :: 0 <= i < |unit.stream| && unit.stream[i].sourceId == id
      ensures GaplessBatch(OfSource(unit.stream, id)) <==> HandledFirst(LiveOf(works[id]).handled)
    {
      SourceOccurs(unit.stream, id);
      WorkIsBatch(acts, id, works[id]);
    }
    forall i | 0 <= i < |unit.stream|
      ensures unit.stream[i].sourceId in works && LiveOf(works[unit.stream[i].sourceId]).emitted != []
    {
      assert unit.stream[i] in unit.stream;
      SourceMembers(unit.stream, unit.stream[i].sourceId, unit.stream[i]);
    }
  }

  // ----- A snapshot that loses an event -----

  /** Counts the events it knows. */
  function Counter(h: HandlerId, state: int, e: Payload): Effect<int> {
    if e == "known" then Effect(state + 1, [], true) else Effect(state, [], false)
  }

  function CounterType(): AggregateType<int, int> {
    AggregateType(Counter, [0], 0, s => s, (_, p) => p, true)
  }

  lemma CounterHandles(a: Aggregate<int>, e: Payload)
    requires a.handlers == [0]
    ensures Handle(Counter, a, e) == Handling(if e == "known" then a.(state := a.state + 1) else a, e == "known")
  {
    assert [0][..0] == [] && RunHandlers(Counter, a, [0][..0], e) == Handling(a, false);
  }

  lemma CounterCalls(id: Guid)
    ensures var live := ApplyAll(Counter, Create(CounterType(), id), ["known", "unknown"]);
      && live.handled == [true, false] && live.emitted == [UncommittedEvent(id, 1, 0, "known")]
      && live.aggregate == Aggregate(id, 0, 2, [0], 1)
  {
    var a := Create(CounterType(), id);
    var one := Aggregate(id, 0, 1, [0], 1);
    CounterHandles(a.(currentVersion := 1), "known");
    CounterHandles(one.(currentVersion := 2), "unknown");
    assert ["known"][..0] == [] && ["known", "unknown"][..1] == ["known"];
    assert ApplyAll(Counter, a, ["known"][..0]) == Live(a, [], []);
    assert ApplyAll(Counter, a, ["known"]) == Live(one, [UncommittedEvent(id, 1, 0, "known")], [true]);
  }

  lemma CounterReplays(id: Guid)
    ensures var stored := [CommittedEvent(id, 1, "known"), CommittedEvent(id, 2, "known")];
      ReplayAll(Counter, Create(CounterType(), id), stored) == Replaying(Aggregate(id, 0, 2, [0], 2), None)
  {
    var a, first, second := Create(CounterType(), id), CommittedEvent(id, 1, "known"), CommittedEvent(id, 2, "known");
    CounterHandles(a, "known");
    CounterHandles(Aggregate(id, 0, 1, [0], 1), "known");
    ReplaySingle(Counter, a, first);
    ReplaySingle(Counter, Aggregate(id, 0, 1, [0], 1), second);
    ReplayConcat(Counter, a, [first], [second]);
    assert [first] + [second] == [first, second];
  }

  lemma KnownApplied(a: Aggregate<int>)
    requires a.handlers == [0] && a.initialVersion == a.currentVersion
    ensures ApplyAll(Counter, a, ["known"]) ==
            Live(a.(currentVersion := a.currentVersion + 1, state := a.state + 1),
                 [UncommittedEvent(a.id, a.currentVersion + 1, a.initialVersion, "known")], [true])
  {
    CounterHandles(a.(currentVersion := a.currentVersion + 1), "known");
    assert ["known"][..0] == [] && ApplyAll(Counter, a, ["known"][..0]) == Live(a, [], []);
  }

  lemma OneEventIsStored(db: Db, e: UncommittedEvent, emitted: seq<UncommittedEvent>, r: StoreResult)
    requires emitted == [e] && 0 <= e.initialVersion == e.sequence - 1
    requires Accepts(db, emitted) && r == Store(db, emitted)
    ensures r.outcome == Stored && GetVersion(r.db, e.sourceId) == Some(e.sequence)
    ensures StoredEvents(r.db.events, e.sourceId) == StoredEvents(db.events, e.sourceId) + [Committed(e)]
  {
    BatchIsAppended(db, emitted, r);
    assert AllCommitted(emitted) == [Committed(e)];
  }

  lemma BatchIsAppended(db: Db, emitted: seq<UncommittedEvent>, r: StoreResult)
    requires IsBatch(emitted) && Accepts(db, emitted) && r == Store(db, emitted)
    ensures r.outcome == Stored && GetVersion(r.db, emitted[0].sourceId) == Some(NewVersion(emitted))
    ensures StoredEvents(r.db.events, emitted[0].sourceId) ==
            StoredEvents(db.events, emitted[0].sourceId) + AllCommitted(emitted)
  {
    OneBatchIsOneGroup(db, emitted);
    StoredGroup(db, emitted, emitted[0].sourceId);
  }

  lemma CounterLoadsOne(id: Guid, newId: Guid, stored: seq<CommittedEvent>)
    requires stored == [CommittedEvent(id, 1, "known")]
    ensures GetById(CounterType(), newId, id, stored, None, None) == Loaded(Aggregate(id, 1, 1, [0], 1))
  {
    CounterHandles(Create(CounterType(), id), "known");
    ReplaySingle(Counter, Create(CounterType(), id), stored[0]);
    assert stored[..1] == stored;
    FullLoad(CounterType(), newId, id, stored, LONG_MAX);
    SameMaximum(CounterType(), newId, id, stored, None, None);
  }

  lemma CounterLoadsTwo(id: Guid, newId: Guid, stored: seq<CommittedEvent>)
    requires stored == [CommittedEvent(id, 1, "known"), CommittedEvent(id, 2, "known")]
    ensures GetById(CounterType(), newId, id, stored, None, None) == Loaded(Aggregate(id, 2, 2, [0], 2))
    ensures GetById(CounterType(), newId, id, stored, Some(Snapshot(id, 2, 1)), None) ==
            Loaded(Aggregate(id, 2, 2, [0], 1))
  {
    CounterReplays(id);
    assert stored[..2] == stored;
    FullLoad(CounterType(), newId, id, stored, LONG_MAX);
    SameMaximum(CounterType(), newId, id, stored, None, None);
    LoadsSnapshotItself(CounterType(), newId, id, stored, Snapshot(id, 2, 1));
  }

  lemma ThreeAreStored(id: Guid, one: seq<UncommittedEvent>, first: StoreResult, two: seq<UncommittedEvent>,
                       second: StoreResult, three: seq<UncommittedEvent>)
    requires one == [UncommittedEvent(id, 1, 0, "known")] && first == Store(EMPTY_DB, one)
    requires two == [UncommittedEvent(id, 2, 1, "known")] && second == Store(first.db, two)
    requires three == [UncommittedEvent(id, 3, 2, "known")]
    ensures first.outcome == second.outcome == Store(second.db, three).outcome == Stored
    ensures StoredEvents(first.db.events, id) == [CommittedEvent(id, 1, "known")]
    ensures StoredEvents(second.db.events, id) == [CommittedEvent(id, 1, "known"), CommittedEvent(id, 2, "known")]
  {
    OneEventIsStored(EMPTY_DB, one[0], one, first);
    OneEventIsStored(first.db, two[0], two, second);
    OneEventIsStored(second.db, three[0], three, Store(second.db, three));
  }

  /** The first call emits event 1, which is stored; the second throws, and the snapshot says version 2. Before it is
      saved another unit of work loads version 1 and stores event 2. Loading through the snapshot then gives version 2,
      but without the effect of event 2; and as version 2 is recorded, event 3 on top of that is stored as well. */
  lemma SnapshotLosesEvent(id: Guid, newId: Guid, live: Live<int>, first: StoreResult, other: Live<int>,
                           second: StoreResult, late: Live<int>)
    requires live == ApplyAll(Counter, Create(CounterType(), id), ["known", "unknown"])
    requires first == Store(EMPTY_DB, live.emitted)
    requires other == ApplyAll(Counter, Aggregate(id, 1, 1, [0], 1), ["known"])
    requires second == Store(first.db, other.emitted)
    requires late == ApplyAll(Counter, Aggregate(id, 2, 2, [0], 1), ["known"])
    ensures first.outcome == second.outcome == Store(second.db, late.emitted).outcome == Stored
    ensures TakeSnapshot(CounterType(), live.aggregate) == Snapshot(id, 2, 1)
    ensures GetById(CounterType(), newId, id, StoredEvents(first.db.events, id), None, None) ==
            Loaded(Aggregate(id, 1, 1, [0], 1))
    ensures var stored := StoredEvents(second.db.events, id);
      && GetById(CounterType(), newId, id, stored, None, None) == Loaded(Aggregate(id, 2, 2, [0], 2))
      && GetById(CounterType(), newId, id, stored, Some(Snapshot(id, 2, 1)), None) ==
           Loaded(Aggregate(id, 2, 2, [0], 1))
  {
    CounterCalls(id);
    KnownApplied(Aggregate(id, 1, 1, [0], 1));
    KnownApplied(Aggregate(id, 2, 2, [0], 1));
    ThreeAreStored(id, live.emitted, first, other.emitted, second, late.emitted);
    CounterLoadsOne(id, newId, StoredEvents(first.db.events, id));
    CounterLoadsTwo(id, newId, StoredEvents(second.db.events, id));
  }
}
