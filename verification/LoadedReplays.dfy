/** What a loaded aggregate is, whatever is stored: with gaps or without, with a snapshot or without, up to any
    revision. */
module LoadedReplays {
  import opened Common
  import opened EventStreams
  import opened MongoStore
  import opened EventSourcing
  import opened Loading

  /** The latest snapshot of the source, if there is one, restores to an aggregate that loads without it. */
  ghost predicate FaithfulLatest<S(!new), P>(t: AggregateType<S, P>, newId: Guid, id: Guid, stored: seq<CommittedEvent>,
                                             latest: Option<Snapshot<P>>)
  {
    latest == None ||
    (t.supportsSnapshot &&
     exists a, revision ::
       GetById(t, newId, id, stored, None, revision) == Loaded(a) && Restored(t, newId, latest.value) == a)
  }

  /** The aggregate is the replay of the first `n` stored events, which are numbered 1, 2, ... */
  ghost predicate IsReplayOf<S, P>(t: AggregateType<S, P>, id: Guid, stored: seq<CommittedEvent>, a: Aggregate<S>,
                                   n: nat)
  {
    && NumberedUpTo(stored, n)
    && a.id == id && a.initialVersion == a.currentVersion == n
    && ReplayAll(t.dispatch, Create(t, id), stored[..n]) == Replaying(a.(initialVersion := 0), None)
  }

  // ----- Replaying what was read -----

  lemma ScratchIsReplay<S, P>(t: AggregateType<S, P>, newId: Guid, id: Guid, stored: seq<CommittedEvent>, n: nat,
                              a: Aggregate<S>)
    requires n <= |stored| && LoadRead(t, newId, id, None, stored[..n]) == Loaded(a)
    ensures IsReplayOf(t, id, stored, a, n) && n >= 1
  {
    var es := stored[..n];
    ReplayNumbers(t.dispatch, Create(t, id), es);
    ReplayVersions(t.dispatch, Create(t, id), es);
    assert forall i | 0 <= i < n :: stored[i] == es[i];
  }

  /** A load that went through on top of `original`: how the tail was numbered, and what came of it. */
  lemma TailNumbers<S>(d: Dispatch<S>, original: Aggregate<S>, tail: seq<CommittedEvent>, a: Aggregate<S>)
    requires original.initialVersion == original.currentVersion
    requires ResultOf(Replay(d, original, StreamOf(original.id, tail))) == Loaded(a)
    ensures var r, n := ReplayAll(d, original, tail), original.currentVersion + |tail|;
      && r.error == None && a == r.aggregate.(initialVersion := n) && a.currentVersion == n && a.id == original.id
      && FollowOn(tail, original.currentVersion)
  {
    assert original.(id := original.id) == original;
    ReplayVersions(d, original, tail);
    if ReplayAll(d, original, tail).error == None {
      ReplayNumbers(d, original, tail);
    }
  }

  lemma TailIsReplay<S, P>(t: AggregateType<S, P>, id: Guid, stored: seq<CommittedEvent>, original: Aggregate<S>,
                           k: nat, n: nat, a: Aggregate<S>)
    requires k <= n <= |stored| && IsReplayOf(t, id, stored, original, k)
    requires ResultOf(Replay(t.dispatch, original, StreamOf(id, stored[k..n]))) == Loaded(a)
    ensures IsReplayOf(t, id, stored, a, n)
  {
    var tail := stored[k..n];
    TailNumbers(t.dispatch, original, tail, a);
    TailIsNumbered(stored, k, n);
    TwoStretches(t, id, stored, original, k, n);
  }

  lemma TwoStretches<S, P>(t: AggregateType<S, P>, id: Guid, stored: seq<CommittedEvent>, original: Aggregate<S>,
                           k: nat, n: nat)
    requires k <= n <= |stored| && IsReplayOf(t, id, stored, original, k)
    ensures var whole := ReplayAll(t.dispatch, Create(t, id), stored[..n]);
      ReplayAll(t.dispatch, original, stored[k..n]) == Replaying(whole.aggregate.(initialVersion := k), whole.error)
    ensures ReplayAll(t.dispatch, Create(t, id), stored[..n]).aggregate.initialVersion == 0
  {
    assert ReplayAll(t.dispatch, Create(t, id), stored[..k]).aggregate.(initialVersion := k) == original;
    ReplayInTwoStretches(t.dispatch, Create(t, id), stored, k, n);
    ReplayVersions(t.dispatch, Create(t, id), stored[..n]);
  }

  // ----- Loading -----

  lemma LoadedFromScratch<S, P>(t: AggregateType<S, P>, newId: Guid, id: Guid, stored: seq<CommittedEvent>,
                                revision: Option<int>, a: Aggregate<S>)
    requires IsAscending(id, stored) && GetById(t, newId, id, stored, None, revision) == Loaded(a)
    ensures IsReplayOf(t, id, stored, a, CountUpTo(stored, Maximum(revision))) && a.currentVersion >= 1
  {
    var n := CountUpTo(stored, Maximum(revision));
    if Maximum(revision) < 1 {
      NothingUpTo(id, stored, Maximum(revision));
    } else {
      ReadsStretch(id, stored, 0, LONG_MIN, Maximum(revision));
    }
    assert stored[0..n] == stored[..n];
    ScratchIsReplay(t, newId, id, stored, n, a);
  }

  /** The aggregate a faithful latest snapshot restores to. */
  lemma SnapshotOriginal<S(!new), P>(t: AggregateType<S, P>, newId: Guid, id: Guid, stored: seq<CommittedEvent>,
                                     latest: Option<Snapshot<P>>) returns (original: Aggregate<S>, k: nat)
    requires IsAscending(id, stored) && FaithfulLatest(t, newId, id, stored, latest) && latest.Some?
    ensures t.supportsSnapshot && latest.value.version == k && latest.value.sourceId == id
    ensures k >= 1 && IsReplayOf(t, id, stored, original, k) && Restored(t, newId, latest.value) == original
  {
    var before;
    original, before :| && GetById(t, newId, id, stored, None, before) == Loaded(original)
                        && Restored(t, newId, latest.value) == original;
    LoadedFromScratch(t, newId, id, stored, before, original);
    k := original.currentVersion;
  }

  /** A replay of what is stored loads, up to its version. */
  lemma ReplayLoads<S, P>(t: AggregateType<S, P>, newId: Guid, id: Guid, stored: seq<CommittedEvent>, a: Aggregate<S>,
                          n: nat)
    requires IsAscending(id, stored) && n >= 1 && IsReplayOf(t, id, stored, a, n)
    ensures GetById(t, newId, id, stored, None, Some(n)) == Loaded(a)
  {
    CountUpToNumbered(stored, n);
    ReadsStretch(id, stored, 0, LONG_MIN, n);
    assert stored[0..n] == stored[..n];
    ReplayIsScratch(t, newId, id, stored[..n], a);
  }

  lemma ReplayIsScratch<S, P>(t: AggregateType<S, P>, newId: Guid, id: Guid, es: seq<CommittedEvent>, a: Aggregate<S>)
    requires es != [] && (forall i | 0 <= i < |es| :: es[i].sourceId == id && es[i].sequence == i + 1)
    requires a.initialVersion == |es|
    requires ReplayAll(t.dispatch, Create(t, id), es) == Replaying(a.(initialVersion := 0), None)
    ensures LoadRead(t, newId, id, None, es) == Loaded(a)
  {
    assert Create(t, newId).(id := id) == Create(t, id);
  }

  /** A faithful snapshot stays so, whatever is stored later. */
  lemma FaithfulStays<S(!new), P>(t: AggregateType<S, P>, newId: Guid, id: Guid, stored: seq<CommittedEvent>,
                                  longer: seq<CommittedEvent>, latest: Option<Snapshot<P>>)
    requires IsAscending(id, stored) && IsAscending(id, longer) && stored <= longer
    requires FaithfulLatest(t, newId, id, stored, latest)
    ensures FaithfulLatest(t, newId, id, longer, latest)
  {
    if latest.Some? {
      var original, k := SnapshotOriginal(t, newId, id, stored, latest);
      assert longer[..k] == stored[..k];
      ReplayLoads(t, newId, id, longer, original, k);
    }
  }

  /** Whatever is loaded, with or without a faithful snapshot, up to whatever revision, is the replay of a gapless
      prefix of what is stored: of all of it up to the revision. */
  lemma LoadedIsReplay<S(!new), P>(t: AggregateType<S, P>, newId: Guid, id: Guid, stored: seq<CommittedEvent>,
                                   latest: Option<Snapshot<P>>, revision: Option<int>, a: Aggregate<S>)
    requires IsAscending(id, stored) && FaithfulLatest(t, newId, id, stored, latest)
    requires GetById(t, newId, id, stored, latest, revision) == Loaded(a)
    ensures IsReplayOf(t, id, stored, a, CountUpTo(stored, Maximum(revision)))
  {
    if latest == None || latest.value.version > Maximum(revision) {
      LoadedFromScratch(t, newId, id, stored, revision, a);
    } else {
      var original, k := SnapshotOriginal(t, newId, id, stored, latest);
      SnapshotLoads(t, newId, id, stored, latest, revision, original, k);
      TailIsReplay(t, id, stored, original, k, CountUpTo(stored, Maximum(revision)), a);
    }
  }

  lemma SnapshotLoads<S, P>(t: AggregateType<S, P>, newId: Guid, id: Guid, stored: seq<CommittedEvent>,
                            latest: Option<Snapshot<P>>, revision: Option<int>, original: Aggregate<S>, k: nat)
    requires IsAscending(id, stored) && NumberedUpTo(stored, k) && t.supportsSnapshot
    requires latest.Some? && latest.value.version == k <= Maximum(revision)
    requires Restored(t, newId, latest.value) == original
    ensures var n := CountUpTo(stored, Maximum(revision));
      k <= n && GetById(t, newId, id, stored, latest, revision) ==
        if IsStream(id, stored[k..n]) then ResultOf(Replay(t.dispatch, original, StreamOf(id, stored[k..n])))
        else Corrupt
  {
    var m := Maximum(revision);
    ReadsStretch(id, stored, k, k + 1, m);
    var tail := stored[k..CountUpTo(stored, m)];
    assert SnapshotUpTo(latest, m) == latest && Read(stored, Minimum(latest), m) == tail;
    LoadsTail(t, newId, id, latest, original, tail);
  }

  lemma LoadsTail<S, P>(t: AggregateType<S, P>, newId: Guid, id: Guid, latest: Option<Snapshot<P>>,
                        original: Aggregate<S>, tail: seq<CommittedEvent>)
    requires latest.Some? && t.supportsSnapshot && Restored(t, newId, latest.value) == original
    ensures LoadRead(t, newId, id, latest, tail) ==
      if IsStream(id, tail) then ResultOf(Replay(t.dispatch, original, StreamOf(id, tail))) else Corrupt
  {
  }

  /** Up to its own version a snapshot is loaded as it is. */
  lemma LoadsItself<S, P>(t: AggregateType<S, P>, newId: Guid, id: Guid, stored: seq<CommittedEvent>,
                          snapshot: Snapshot<P>)
    requires t.supportsSnapshot && snapshot.sourceId == id
    ensures GetById(t, newId, id, stored, Some(snapshot), Some(snapshot.version)) ==
            Loaded(Restored(t, newId, snapshot))
  {
    EmptyRange(stored, snapshot.version);
    LoadsEmptyTail(t, newId, snapshot);
    LoadsWhatIsRead(t, newId, id, stored, Some(snapshot), Some(snapshot.version), []);
  }

  lemma EmptyRange(stored: seq<CommittedEvent>, version: int)
    ensures Read(stored, version + 1, version) == []
  {
    NothingInRange(stored, version + 1, version);
  }

  lemma LoadsEmptyTail<S, P>(t: AggregateType<S, P>, newId: Guid, snapshot: Snapshot<P>)
    requires t.supportsSnapshot
    ensures LoadRead(t, newId, snapshot.sourceId, Some(snapshot), []) == Loaded(Restored(t, newId, snapshot))
  {
  }

  lemma LoadsWhatIsRead<S, P>(t: AggregateType<S, P>, newId: Guid, id: Guid, stored: seq<CommittedEvent>,
                              latest: Option<Snapshot<P>>, revision: Option<int>, es: seq<CommittedEvent>)
    requires SnapshotUpTo(latest, Maximum(revision)) == latest && Read(stored, Minimum(latest), Maximum(revision)) == es
    ensures GetById(t, newId, id, stored, latest, revision) == LoadRead(t, newId, id, latest, es)
  {
  }

  /** Every load gives the replay of a prefix of what is stored. */
  ghost predicate LoadsReplays<S(!new), P>(t: AggregateType<S, P>, newId: Guid, id: Guid, stored: seq<CommittedEvent>,
                                           latest: Option<Snapshot<P>>)
  {
    forall revision, a | GetById(t, newId, id, stored, latest, revision) == Loaded(a) ::
      IsReplayOf(t, id, stored, a, CountUpTo(stored, Maximum(revision)))
  }

  /** It does so exactly when the latest snapshot is faithful. */
  lemma LoadsReplaysExactlyWhenFaithful<S(!new), P>(t: AggregateType<S, P>, newId: Guid, id: Guid,
                                                    stored: seq<CommittedEvent>, latest: Option<Snapshot<P>>)
    requires IsAscending(id, stored) && t.supportsSnapshot
    requires latest.Some? ==> latest.value.sourceId == id && latest.value.version >= 1
    ensures FaithfulLatest(t, newId, id, stored, latest) <==> LoadsReplays(t, newId, id, stored, latest)
  {
    if FaithfulLatest(t, newId, id, stored, latest) {
      forall revision, a | GetById(t, newId, id, stored, latest, revision) == Loaded(a)
        ensures IsReplayOf(t, id, stored, a, CountUpTo(stored, Maximum(revision)))
      {
        LoadedIsReplay(t, newId, id, stored, latest, revision, a);
      }
    } else if LoadsReplays(t, newId, id, stored, latest) {
      ReplaysMakeFaithful(t, newId, id, stored, latest.value);
    }
  }

  lemma ReplaysMakeFaithful<S(!new), P>(t: AggregateType<S, P>, newId: Guid, id: Guid, stored: seq<CommittedEvent>,
                                        snapshot: Snapshot<P>)
    requires IsAscending(id, stored) && t.supportsSnapshot && snapshot.sourceId == id && snapshot.version >= 1
    requires LoadsReplays(t, newId, id, stored, Some(snapshot))
    ensures FaithfulLatest(t, newId, id, stored, Some(snapshot))
  {
    LoadsItself(t, newId, id, stored, snapshot);
    var a := Restored(t, newId, snapshot);
    assert IsReplayOf(t, id, stored, a, CountUpTo(stored, Maximum(Some(snapshot.version))));
    ReplayLoads(t, newId, id, stored, a, snapshot.version);
  }

  /** Over a gapless history the latest snapshot changes nothing about any load exactly when it is faithful. */
  lemma ChangesNothingExactlyWhenFaithful<S(!new), P>(t: AggregateType<S, P>, newId: Guid, id: Guid,
                                                      stored: seq<CommittedEvent>, latest: Option<Snapshot<P>>)
    requires IsHistory(id, stored) && t.supportsSnapshot && (latest.Some? ==> latest.value.sourceId == id)
    ensures FaithfulLatest(t, newId, id, stored, latest) <==>
      forall revision ::
        GetById(t, newId, id, stored, latest, revision) == GetById(t, newId, id, stored, None, revision)
  {
    if FaithfulLatest(t, newId, id, stored, latest) {
      forall revision
        ensures GetById(t, newId, id, stored, latest, revision) == GetById(t, newId, id, stored, None, revision)
      {
        FaithfulLatestChangesNothing(t, newId, id, stored, latest, revision);
      }
    } else {
      LoadsItself(t, newId, id, stored, latest.value);
      assert GetById(t, newId, id, stored, latest, Some(latest.value.version)) !=
             GetById(t, newId, id, stored, None, Some(latest.value.version));
    }
  }

  /** Over a gapless history a faithful latest snapshot changes nothing about any load. */
  lemma FaithfulLatestChangesNothing<S(!new), P>(t: AggregateType<S, P>, newId: Guid, id: Guid,
                                                 stored: seq<CommittedEvent>, latest: Option<Snapshot<P>>,
                                                 revision: Option<int>)
    requires IsHistory(id, stored) && FaithfulLatest(t, newId, id, stored, latest)
    ensures GetById(t, newId, id, stored, latest, revision) == GetById(t, newId, id, stored, None, revision)
  {
    if latest.Some? && latest.value.version <= Maximum(revision) {
      var original, k := SnapshotOriginal(t, newId, id, stored, latest);
      ReplayLoads(t, newId, id, stored, original, k);
      RestoredLoads(t, newId, id, stored, k, original, latest.value, Maximum(revision));
      SameMaximum(t, newId, id, stored, latest, revision);
      SameMaximum(t, newId, id, stored, None, revision);
    }
  }

  lemma SameMaximum<S, P>(t: AggregateType<S, P>, newId: Guid, id: Guid, stored: seq<CommittedEvent>,
                          latest: Option<Snapshot<P>>, revision: Option<int>)
    ensures GetById(t, newId, id, stored, latest, revision) ==
              GetById(t, newId, id, stored, latest, Some(Maximum(revision)))
  {
  }

  // ----- Gaps -----

  /** A number is missing between two neighbours of the range. */
  predicate HasGap(stored: seq<CommittedEvent>, minVersion: int, maxVersion: int) {
    exists i :: 0 <= i < |stored| - 1 && minVersion <= stored[i].sequence && stored[i + 1].sequence <= maxVersion
                && stored[i + 1].sequence != stored[i].sequence + 1
  }

  /** A load fails in the stream's constructor exactly when a number is missing between two of the events that it reads:
      those after the snapshot it uses, if any, up to the revision asked for. */
  lemma CorruptExactlyForGaps<S, P>(t: AggregateType<S, P>, newId: Guid, id: Guid, stored: seq<CommittedEvent>,
                                    latest: Option<Snapshot<P>>, revision: Option<int>)
    requires IsAscending(id, stored)
    ensures var maxVersion := if revision.Some? then revision.value else LONG_MAX;
      var usesSnapshot := latest.Some? && latest.value.version <= maxVersion;
      GetById(t, newId, id, stored, latest, revision) == Corrupt <==>
        HasGap(stored, if usesSnapshot then latest.value.version + 1 else LONG_MIN, maxVersion)
  {
    var snapshot, maxVersion := SnapshotUpTo(latest, Maximum(revision)), Maximum(revision);
    var minVersion := Minimum(snapshot);
    var k, n := CountUpTo(stored, minVersion - 1), CountUpTo(stored, maxVersion);
    ReadIsStretch(id, stored, minVersion, maxVersion);
    StreamExactlyWithoutGaps(id, stored, minVersion, maxVersion, k, n);
    CorruptExactlyUnlessStream(t, newId, id, snapshot, stored[k..n]);
  }

  lemma CorruptExactlyUnlessStream<S, P>(t: AggregateType<S, P>, newId: Guid, id: Guid, snapshot: Option<Snapshot<P>>,
                                         es: seq<CommittedEvent>)
    ensures LoadRead(t, newId, id, snapshot, es) == Corrupt <==> !IsStream(id, es)
  {
  }

  lemma ReadIsStretch(id: Guid, stored: seq<CommittedEvent>, minVersion: int, maxVersion: int)
    requires IsAscending(id, stored) && (minVersion <= maxVersion + 1 || minVersion <= 1)
    ensures var k, n := CountUpTo(stored, minVersion - 1), CountUpTo(stored, maxVersion);
      k <= n && Read(stored, minVersion, maxVersion) == stored[k..n]
  {
    var k, n := CountUpTo(stored, minVersion - 1), CountUpTo(stored, maxVersion);
    RangeIsStretch(stored, k, n, minVersion, maxVersion);
    OrderingAnyArrangement(stored[k..n], stored[k..n]);
  }

  lemma StreamExactlyWithoutGaps(id: Guid, stored: seq<CommittedEvent>, minVersion: int, maxVersion: int, k: nat,
                                 n: nat)
    requires IsAscending(id, stored) && k <= n
    requires k == CountUpTo(stored, minVersion - 1) && n == CountUpTo(stored, maxVersion)
    ensures IsStream(id, stored[k..n]) <==> !HasGap(stored, minVersion, maxVersion)
  {
    forall i | 0 <= i < |stored| - 1
      ensures minVersion <= stored[i].sequence && stored[i + 1].sequence <= maxVersion <==> k <= i && i + 1 < n
    {
    }
    StretchIsStream(id, stored, k, n);
  }

  lemma StretchIsStream(id: Guid, stored: seq<CommittedEvent>, k: nat, n: nat)
    requires k <= n <= |stored| && forall i | 0 <= i < |stored| :: stored[i].sourceId == id
    ensures IsStream(id, stored[k..n]) <==>
      forall i | k <= i < n - 1 :: stored[i + 1].sequence == stored[i].sequence + 1
  {
    var es := stored[k..n];
    if IsStream(id, es) {
      forall i | k <= i < n - 1
        ensures stored[i + 1].sequence == stored[i].sequence + 1
      {
        assert es[i - k] == stored[i] && es[i + 1 - k] == stored[i + 1];
      }
    } else if forall i | k <= i < n - 1 :: stored[i + 1].sequence == stored[i].sequence + 1 {
      NeighboursMakeStream(id, stored, k, n);
      assert false;
    }
  }

  lemma {:induction false} NeighboursMakeStream(id: Guid, stored: seq<CommittedEvent>, k: nat, n: nat)
    requires k <= n <= |stored| && forall i | 0 <= i < |stored| :: stored[i].sourceId == id
    requires forall i | k <= i < n - 1 :: stored[i + 1].sequence == stored[i].sequence + 1
    ensures IsStream(id, stored[k..n])
    decreases n - k
  {
    if k < n {
      NeighboursMakeStream(id, stored, k, n - 1);
      var front, es := stored[k..n - 1], stored[k..n];
      assert es == front + [stored[n - 1]];
      assert front != [] ==> front[|front| - 1] == stored[n - 2];
    }
  }

  // ----- Versions -----

  function VersionOf<P>(snapshot: Option<Snapshot<P>>): Option<int> {
    if snapshot.Some? then Some(snapshot.value.version) else None
  }

  /** Snapshots are of the source and of versions from 1 up. */
  predicate IsSnapshotOf<P>(id: Guid, snapshot: Option<Snapshot<P>>) {
    snapshot.Some? ==> snapshot.value.sourceId == id && snapshot.value.version >= 1
  }

  lemma ReplayedHasVersion<S, P>(t: AggregateType<S, P>, newId: Guid, id: Guid, snapshot: Option<Snapshot<P>>,
                                 es: seq<CommittedEvent>, a: Aggregate<S>)
    requires IsSnapshotOf(id, snapshot) && LoadRead(t, newId, id, snapshot, es) == Loaded(a)
    requires forall e | e in es :: e.sequence >= Minimum(snapshot)
    ensures ReplayedVersion(VersionOf(snapshot), es) == Some(a.initialVersion)
    ensures a.id == id && 1 <= a.initialVersion == a.currentVersion
  {
    if snapshot.Some? && t.supportsSnapshot {
      TailNumbers(t.dispatch, Restored(t, newId, snapshot.value), es, a);
    } else {
      assert es[0] in es;
      ScratchNumbers(t, newId, id, es, a);
    }
  }

  lemma ScratchNumbers<S, P>(t: AggregateType<S, P>, newId: Guid, id: Guid, es: seq<CommittedEvent>, a: Aggregate<S>)
    requires FromScratch(t, newId, StreamOf(id, es)) == Loaded(a)
    ensures es != [] && FollowOn(es, 0) && a.id == id && a.initialVersion == a.currentVersion == |es|
  {
    assert Create(t, newId).(id := id) == Create(t, id);
    ReplayNumbers(t.dispatch, Create(t, id), es);
    ReplayVersions(t.dispatch, Create(t, id), es);
  }

  lemma ReadIsInRange(stored: seq<CommittedEvent>, minVersion: int, maxVersion: int)
    ensures forall e | e in Read(stored, minVersion, maxVersion) :: minVersion <= e.sequence <= maxVersion
  {
    forall e | e in Read(stored, minVersion, maxVersion)
      ensures minVersion <= e.sequence <= maxVersion
    {
      assert e in multiset(Read(stored, minVersion, maxVersion));
      RangeMembers(stored, minVersion, maxVersion, e);
    }
  }

  /** Whatever is loaded, with whatever snapshot, has the version the snapshot's version and the stored numbers make. */
  lemma LoadedHasVersion<S, P>(t: AggregateType<S, P>, newId: Guid, id: Guid, stored: seq<CommittedEvent>,
                               latest: Option<Snapshot<P>>, revision: Option<int>, a: Aggregate<S>)
    requires IsSnapshotOf(id, latest) && GetById(t, newId, id, stored, latest, revision) == Loaded(a)
    ensures LoadedVersion(stored, VersionOf(latest), Maximum(revision)) == Some(a.initialVersion)
    ensures a.id == id && 1 <= a.initialVersion == a.currentVersion
  {
    var snapshot := SnapshotUpTo(latest, Maximum(revision));
    var es := Read(stored, Minimum(snapshot), Maximum(revision));
    ReadIsInRange(stored, Minimum(snapshot), Maximum(revision));
    ReplayedHasVersion(t, newId, id, snapshot, es, a);
    assert Used(VersionOf(latest), Maximum(revision)) == VersionOf(snapshot);
    assert FirstRead(VersionOf(snapshot)) == Minimum(snapshot);
  }
}
