/** DefaultAggregateSnapshotter, DomainRepository, the snapshot store and UnitOfWork as the classes they are. */
module Repositories {
  import opened Common
  import opened EventStreams
  import opened MongoStore
  import opened MongoClass
  import opened EventSourcing
  import opened Loading

  /** What a load gives its caller: an instance, null, or an exception. */
  ghost predicate Gives<S(!new)>(r: LoadResult<S>, aggregate: EventSource?<S>, error: Option<ReplayError>)
    reads aggregate
  {
    match r
    case Loaded(a) => aggregate != null && aggregate.View() == a && error == None
    case NoAggregate => aggregate == null && error == None
    case Failed(e) => error == Some(e)
    case Corrupt => false
  }

  class DefaultAggregateSnapshotter<S(!new), P(!new)> {
    const aggregateType: AggregateType<S, P>

    constructor (aggregateType: AggregateType<S, P>)
      ensures this.aggregateType == aggregateType
    {
      this.aggregateType := aggregateType;
    }

    method TryLoadFromSnapshot(newId: Guid, snapshot: Option<Snapshot<P>>, stream: CommittedEventStream)
      returns (loaded: bool, aggregate: EventSource?<S>, error: Option<ReplayError>)
      ensures loaded <==> FromSnapshot(aggregateType, newId, snapshot, stream).Some?
      ensures loaded ==> aggregate != null && fresh(aggregate)
      ensures loaded ==> Gives(FromSnapshot(aggregateType, newId, snapshot, stream).value, aggregate, error)
    {
      aggregate, error := null, None;
      if snapshot.None? {
        return false, null, None;
      }
      if !aggregateType.supportsSnapshot {
        return false, null, None;
      }
      var root := new EventSource(aggregateType.dispatch, newId, aggregateType.handlers, aggregateType.state);
      root.InitializeFromSnapshot(snapshot.value.sourceId, snapshot.value.version);
      root.state := aggregateType.restore(root.state, snapshot.value.payload);
      error := root.InitializeFromHistory(stream);
      loaded, aggregate := true, root;
    }

    /** `hasInterface`: whether the aggregate's class can create snapshots at all. */
    method TryTakeSnapshot(aggregate: EventSource<S>, hasInterface: bool) returns (snapshot: Option<Snapshot<P>>)
      ensures snapshot == if hasInterface then Some(TakeSnapshot(aggregateType, aggregate.View())) else None
    {
      if !hasInterface {
        return None;
      }
      var payload := aggregateType.create(aggregate.state);
      snapshot := Some(Snapshot(aggregate.eventSourceId, aggregate.currentVersion, payload));
    }
  }

  class DomainRepository<S(!new), P(!new)> {
    const aggregateType: AggregateType<S, P>
    const snapshotter: DefaultAggregateSnapshotter<S, P>

    constructor (snapshotter: DefaultAggregateSnapshotter<S, P>)
      ensures aggregateType == snapshotter.aggregateType && this.snapshotter == snapshotter
    {
      aggregateType := snapshotter.aggregateType;
      this.snapshotter := snapshotter;
    }

    method Load(newId: Guid, snapshot: Option<Snapshot<P>>, stream: CommittedEventStream)
      returns (aggregate: EventSource?<S>, error: Option<ReplayError>)
      requires snapshotter.aggregateType == aggregateType
      ensures Gives(Loading.Load(aggregateType, newId, snapshot, stream), aggregate, error)
      ensures aggregate != null ==> fresh(aggregate)
    {
      var loaded;
      loaded, aggregate, error := snapshotter.TryLoadFromSnapshot(newId, snapshot, stream);
      if !loaded {
        aggregate, error := GetByIdFromScratch(newId, stream);
      }
    }

    method GetByIdFromScratch(newId: Guid, stream: CommittedEventStream)
      returns (aggregate: EventSource?<S>, error: Option<ReplayError>)
      ensures Gives(FromScratch(aggregateType, newId, stream), aggregate, error)
      ensures aggregate != null ==> fresh(aggregate)
    {
      aggregate, error := null, None;
      if |stream.events| > 0 {
        var root := new EventSource(aggregateType.dispatch, newId, aggregateType.handlers, aggregateType.state);
        error := root.InitializeFromHistory(stream);
        aggregate := root;
      }
    }
  }

  // ----- The snapshot store -----

  /** The stored snapshot of a source with the largest version. */
  function Latest<P>(snapshots: seq<Snapshot<P>>, id: Guid): Option<Snapshot<P>> {
    if snapshots == [] then None
    else
      var before, last := Latest(snapshots[..|snapshots| - 1], id), snapshots[|snapshots| - 1];
      if last.sourceId == id && (before.None? || last.version > before.value.version) then Some(last) else before
  }

  lemma {:induction false} LatestIsLargest<P>(snapshots: seq<Snapshot<P>>, id: Guid)
    ensures Latest(snapshots, id).Some? ==>
        Latest(snapshots, id).value in snapshots && Latest(snapshots, id).value.sourceId == id
    ensures forall i | 0 <= i < |snapshots| && snapshots[i].sourceId == id ::
      Latest(snapshots, id).Some? && snapshots[i].version <= Latest(snapshots, id).value.version
  {
    if snapshots != [] {
      var front := snapshots[..|snapshots| - 1];
      LatestIsLargest(front, id);
      assert snapshots == front + [snapshots[|snapshots| - 1]];
      forall i | 0 <= i < |snapshots| && snapshots[i].sourceId == id
        ensures Latest(snapshots, id).Some? && snapshots[i].version <= Latest(snapshots, id).value.version
      {
        assert i < |front| ==> front[i] == snapshots[i];
      }
    }
  }

  class SnapshotStore<P> {
    var snapshots: seq<Snapshot<P>>

    constructor ()
      ensures snapshots == []
    {
      snapshots := [];
    }

    method SaveSnapshot(snapshot: Snapshot<P>)
      modifies this
      ensures snapshots == old(snapshots) + [snapshot]
    {
      snapshots := snapshots + [snapshot];
    }

    method GetSnapshot(id: Guid, maxVersion: int) returns (snapshot: Option<Snapshot<P>>)
      ensures snapshot == SnapshotUpTo(Latest(snapshots, id), maxVersion)
    {
      snapshot := Latest(snapshots, id);
      if snapshot.Some? && snapshot.value.version > maxVersion {
        snapshot := None;
      }
    }
  }

  // ----- The unit of work -----

  /** The snapshots Accept takes: of every dirty instance, in order, that the policy picks. */
  ghost function SnapshotsOf<S(!new), P(!new)>(t: AggregateType<S, P>, dirty: seq<EventSource<S>>,
                                             policy: Aggregate<S> -> bool, hasInterface: bool): seq<Snapshot<P>>
    reads dirty
  {
    if dirty == [] then []
    else
      var last := dirty[|dirty| - 1].View();
      SnapshotsOf(t, dirty[..|dirty| - 1], policy, hasInterface) +
        if policy(last) && hasInterface then [TakeSnapshot(t, last)] else []
  }

  /** One snapshot for each instance the policy picks and for no other, in the order of registration, with the
      instance's id, version and created payload; none when the class cannot create snapshots. `at` says of which. */
  lemma {:induction false} SnapshotsAreOfPicked<S(!new), P(!new)>(
      t: AggregateType<S, P>, dirty: seq<EventSource<S>>, policy: Aggregate<S> -> bool, hasInterface: bool,
      snapshots: seq<Snapshot<P>>) returns (at: seq<nat>)
    requires snapshots == SnapshotsOf(t, dirty, policy, hasInterface)
    ensures |at| == |snapshots| && (forall k | 0 <= k < |at| :: at[k] < |dirty|)
    ensures forall j, k | 0 <= j < k < |at| :: at[j] < at[k]
    ensures forall k | 0 <= k < |at| ::
      var a := dirty[at[k]];
      policy(a.View()) && snapshots[k] == Snapshot(a.eventSourceId, a.currentVersion, t.create(a.state))
    ensures hasInterface ==> forall i: nat | i < |dirty| && policy(dirty[i].View()) :: i in at
    ensures !hasInterface ==> snapshots == []
  {
    at := [];
    if dirty != [] {
      var n := |dirty| - 1;
      var before := SnapshotsOf(t, dirty[..n], policy, hasInterface);
      at := SnapshotsAreOfPicked(t, dirty[..n], policy, hasInterface, before);
      if policy(dirty[n].View()) && hasInterface {
        at := at + [n];
      }
    }
  }

  class UnitOfWork<S(!new), P(!new)> {
    const repository: DomainRepository<S, P>
    const eventStore: MongoDBEventStore
    const snapshotStore: SnapshotStore<P>
    const eventStream: UncommittedEventStream
    var dirtyInstances: seq<EventSource<S>>
    var published: seq<UncommittedEvent>  // what the event bus was given

    /** No instance is registered twice. */
    ghost predicate Valid()
      reads this, eventStream
    {
      eventStream.Valid() && forall i, j | 0 <= i < j < |dirtyInstances| :: dirtyInstances[i] != dirtyInstances[j]
    }

    constructor (repository: DomainRepository<S, P>, eventStore: MongoDBEventStore, snapshotStore: SnapshotStore<P>)
      ensures Valid() && fresh(eventStream) && eventStream.events == [] && dirtyInstances == [] && published == []
      ensures this.repository == repository && this.eventStore == eventStore && this.snapshotStore == snapshotStore
    {
      this.repository, this.eventStore, this.snapshotStore := repository, eventStore, snapshotStore;
      eventStream := new UncommittedEventStream();
      dirtyInstances, published := [], [];
    }

    method AggregateRootEventAppliedHandler(aggregate: EventSource<S>, e: UncommittedEvent)
      requires Valid()
      modifies this, eventStream
      ensures Valid() && eventStream.events == old(eventStream.events) + [e] && published == old(published)
      ensures dirtyInstances ==
          if aggregate in old(dirtyInstances) then old(dirtyInstances) else old(dirtyInstances) + [aggregate]
    {
      RegisterDirtyInstance(aggregate);
      eventStream.Append(e);
    }

    method RegisterDirtyInstance(aggregate: EventSource<S>)
      requires Valid()
      modifies `dirtyInstances
      ensures Valid()
      ensures dirtyInstances ==
          if aggregate in old(dirtyInstances) then old(dirtyInstances) else old(dirtyInstances) + [aggregate]
    {
      if aggregate !in dirtyInstances {
        dirtyInstances := dirtyInstances + [aggregate];
      }
    }

    /** The instance, null or exception that GetById promises, whatever is stored; `corrupt` is the exception of the
        stream's constructor. */
    method GetById(newId: Guid, id: Guid, lastKnownRevision: Option<int>)
      returns (aggregate: EventSource?<S>, error: Option<ReplayError>, corrupt: bool)
      requires repository.snapshotter.aggregateType == repository.aggregateType
      ensures var r := Loading.GetById(repository.aggregateType, newId, id, StoredEvents(eventStore.events, id),
                                       Latest(snapshotStore.snapshots, id), lastKnownRevision);
        (corrupt <==> r == Corrupt) && (!corrupt ==> Gives(r, aggregate, error))
    {
      var maxVersion := if lastKnownRevision.Some? then lastKnownRevision.value else LONG_MAX;
      var snapshot := snapshotStore.GetSnapshot(id, maxVersion);
      var minVersion := if snapshot.Some? then snapshot.value.version + 1 else LONG_MIN;
      var r := eventStore.ReadFrom(id, minVersion, maxVersion);
      if r.Invalid? {
        return null, None, true;
      }
      corrupt := false;
      aggregate, error := repository.Load(newId, snapshot, r.stream);
    }

    /** Store first: if it throws, nothing is published and no snapshot is taken. */
    method Accept(policy: Aggregate<S> -> bool, hasInterface: bool) returns (outcome: Outcome)
      requires Valid()
      modifies `published, eventStore, snapshotStore
      ensures outcome == Store(old(eventStore.View()), eventStream.events).outcome
      ensures eventStore.View() == Store(old(eventStore.View()), eventStream.events).db
      ensures published == old(published) + if outcome == Stored then eventStream.events else []
      ensures snapshotStore.snapshots == old(snapshotStore.snapshots) +
        if outcome != Stored then []
        else SnapshotsOf(repository.snapshotter.aggregateType, dirtyInstances, policy, hasInterface)
    {
      outcome := eventStore.StoreStream(eventStream);
      if outcome != Stored {
        return;
      }
      published := published + eventStream.events;
      CreateSnapshots(policy, hasInterface);
    }

    method CreateSnapshots(policy: Aggregate<S> -> bool, hasInterface: bool)
      modifies snapshotStore
      ensures snapshotStore.snapshots == old(snapshotStore.snapshots) +
        SnapshotsOf(repository.snapshotter.aggregateType, dirtyInstances, policy, hasInterface)
    {
      var i := 0;
      while i < |dirtyInstances|
        invariant 0 <= i <= |dirtyInstances|
        invariant snapshotStore.snapshots == old(snapshotStore.snapshots) +
          SnapshotsOf(repository.snapshotter.aggregateType, dirtyInstances[..i], policy, hasInterface)
      {
        assert dirtyInstances[..i + 1][..i] == dirtyInstances[..i];
        if policy(dirtyInstances[i].View()) {
          var snapshot := repository.snapshotter.TryTakeSnapshot(dirtyInstances[i], hasInterface);
          if snapshot.Some? {
            snapshotStore.SaveSnapshot(snapshot.value);
          }
        }
        i := i + 1;
      }
      assert dirtyInstances[..i] == dirtyInstances;
    }
  }
}
