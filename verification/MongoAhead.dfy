/** What a snapshot ahead of the stored events does: each promise of the store fails in some run, and safe snapshots are
    exactly those with which none does. */
module MongoAhead {
  import opened Common
  import opened EventStreams
  import opened MongoStore
  import opened MongoRace
  import opened MongoUninterrupted
  import opened MongoSealed
  import opened MongoUnits
  import opened MongoSnapshots

  /** `k` events of one source on top of version `n`. */
  function Events(id: Guid, n: nat, k: nat): (es: seq<UncommittedEvent>)
    ensures |es| == k && forall i | 0 <= i < k :: es[i] == UncommittedEvent(id, n + 1 + i, n, "")
  {
    seq(k, i => UncommittedEvent(id, n + 1 + i, n, ""))
  }

  lemma EventsAreTidy(id: Guid, n: nat, k: nat)
    ensures k > 0 ==> IsBatch(Events(id, n, k)) && NewVersion(Events(id, n, k)) == n + k
    ensures TidyUnit(Unit(Events(id, n, k), map[]))
  {
    if k > 0 {
      OneBatchIsGapless(Events(id, n, k));
    }
  }

  /** What a unit of work can be: per source one batch, and snapshots of versions not before the last events. */
  predicate IsUnit(unit: Unit) {
    && (forall i | 0 <= i < |unit.stream| :: IsBatch(OfSource(unit.stream, unit.stream[i].sourceId)))
    && forall id | id in unit.snapshots ::
         var group := OfSource(unit.stream, id);
         group != [] && unit.snapshots[id] >= group[|group| - 1].sequence
  }

  /** The unit of work under test takes a snapshot ahead of its gapless batch. */
  ghost predicate TakesAhead(unit: Unit, id: Guid, es: seq<UncommittedEvent>, version: nat) {
    && IsUnit(unit) && id in unit.snapshots && es == OfSource(unit.stream, id) && unit.snapshots[id] == version
    && IsBatch(es) && es[0].sourceId == id && IsGapless(es, es[0].initialVersion) && version > NewVersion(es)
  }

  lemma {:induction false} UnsafeTakesAhead(unit: Unit) returns (id: Guid, es: seq<UncommittedEvent>, version: nat)
    requires IsUnit(unit) && !SafeUnit(unit)
    ensures TakesAhead(unit, id, es, version)
  {
    id :| id in unit.snapshots && !SafeSnapshot(OfSource(unit.stream, id), unit.snapshots[id]);
    es := OfSource(unit.stream, id);
    SourceIsBatch(unit, id);
    BatchNumbers(es, |es| - 1);
    version := unit.snapshots[id];
  }

  lemma SourceIsBatch(unit: Unit, id: Guid)
    requires IsUnit(unit) && OfSource(unit.stream, id) != []
    ensures IsBatch(OfSource(unit.stream, id)) && OfSource(unit.stream, id)[0].sourceId == id
  {
    SourceOccurs(unit.stream, id);
    SourceMembers(unit.stream, id, OfSource(unit.stream, id)[0]);
  }

  // ----- Getting sources ready -----

  /** Nothing is known of the source. */
  ghost predicate Unknown(s: System, id: Guid) {
    StoredEvents(s.race.db.events, id) == [] && GetVersion(s.race.db, id) == None
  }

  /** `n` events are stored and recorded, and an aggregate was loaded there. */
  ghost predicate ReadyAt(s: System, id: Guid, n: nat) {
    && CountOf(s.race.db, id) == n && Loadable(s.race.db, id, n)
    && GetVersion(s.race.db, id) == (if n == 0 then None else Some(n))
    && (n == 0 || n in LoadedOf(s, id))
  }

  ghost predicate SameSource(s: System, s': System, id: Guid) {
    && StoredEvents(s'.race.db.events, id) == StoredEvents(s.race.db.events, id)
    && GetVersion(s'.race.db, id) == GetVersion(s.race.db, id) && LoadedOf(s', id) == LoadedOf(s, id)
  }

  ghost predicate Calm(steps: seq<Act>, s: System, units: set<Unit>) {
    Reaches(steps, s, units) && Quiet(s) && Reachable(s.race) && s.saved == map[]
  }

  lemma {:induction false} PrepareSource(steps: seq<Act>, s: System, units: set<Unit>, id: Guid, n: nat)
    returns (steps': seq<Act>, s': System)
    requires Calm(steps, s, units) && Unknown(s, id) && Unit(Events(id, 0, n), map[]) in units
    ensures Calm(steps', s', units) && ReadyAt(s', id, n)
    ensures forall other | other != id :: SameSource(s, s', other)
  {
    steps', s' := steps, s;
    if n > 0 {
      var es := Events(id, 0, n);
      EventsAreTidy(id, 0, n);
      FirstMayBeStored(s, es);
      steps', s' := Stores(steps, s, units, Unit(es, map[]));
      FirstIsStored(s.race.db, s'.race.db, id, n);
      steps', s' := LoadsAt(steps', s', units, id, n);
    }
  }

  lemma FirstMayBeStored(s: System, es: seq<UncommittedEvent>)
    requires IsBatch(es) && es[0].initialVersion == 0 && Unknown(s, es[0].sourceId)
    ensures MayStore(s, Unit(es, map[]))
  {
    OneBatchBegins(s, Unit(es, map[]), es);
    OneBatchMayBegin(s.race, es);
    BatchIsStored(s.race.db, es);
  }

  lemma BatchIsStored(db: Db, es: seq<UncommittedEvent>)
    requires IsBatch(es) && Accepts(db, es)
    ensures Store(db, es).outcome == Stored
  {
    SingleSourceIsOneGroup(db, es);
    StoredGroup(db, es, es[0].sourceId);
  }

  lemma FirstIsStored(db: Db, db': Db, id: Guid, n: nat)
    requires n > 0 && StoredEvents(db.events, id) == [] && GetVersion(db, id) == None
    requires db' == Store(db, Events(id, 0, n)).db
    ensures CountOf(db', id) == n && Loadable(db', id, n) && GetVersion(db', id) == Some(n)
    ensures forall other | other != id ::
      && StoredEvents(db'.events, other) == StoredEvents(db.events, other)
      && GetVersion(db', other) == GetVersion(db, other)
  {
    var es := Events(id, 0, n);
    EventsAreTidy(id, 0, n);
    SingleSourceIsOneGroup(db, es);
    StoredGroup(db, es, id);
    forall other | other != id
      ensures StoredEvents(db'.events, other) == StoredEvents(db.events, other)
      ensures GetVersion(db', other) == GetVersion(db, other)
    {
      StoredGroup(db, es, other);
    }
  }

  /** The units of work that store what the groups were applied to. */
  ghost predicate HasFirst(groups: seq<seq<UncommittedEvent>>, units: set<Unit>) {
    forall i | 0 <= i < |groups| ::
      IsBatch(groups[i]) && Unit(Events(groups[i][0].sourceId, 0, groups[i][0].initialVersion), map[]) in units
  }

  ghost predicate AllReady(s: System, groups: seq<seq<UncommittedEvent>>) {
    forall i | 0 <= i < |groups| ::
      IsBatch(groups[i]) && ReadyAt(s, groups[i][0].sourceId, groups[i][0].initialVersion)
  }

  lemma {:induction false} PrepareAll(steps: seq<Act>, s: System, units: set<Unit>, groups: seq<seq<UncommittedEvent>>)
    returns (steps': seq<Act>, s': System)
    requires Calm(steps, s, units) && HasFirst(groups, units) && DistinctSources(groups)
    requires forall id :: Unknown(s, id)
    ensures Calm(steps', s', units) && AllReady(s', groups)
    ensures forall id | !HasGroup(groups, id) :: Unknown(s', id)
  {
    steps', s' := steps, s;
    if groups != [] {
      var front, last := groups[..|groups| - 1], groups[|groups| - 1];
      assert groups == front + [last];
      steps', s' := PrepareAll(steps, s, units, front);
      var prepared := s';
      assert !HasGroup(front, last[0].sourceId);
      steps', s' := PrepareSource(steps', s', units, last[0].sourceId, last[0].initialVersion);
      OneMoreReady(prepared, s', front, last);
    }
  }

  lemma OneMoreReady(s: System, s': System, front: seq<seq<UncommittedEvent>>, last: seq<UncommittedEvent>)
    requires AllReady(s, front) && IsBatch(last) && DistinctSources(front + [last])
    requires ReadyAt(s', last[0].sourceId, last[0].initialVersion)
    requires forall id | id != last[0].sourceId :: SameSource(s, s', id)
    requires forall id | !HasGroup(front, id) :: Unknown(s, id)
    ensures AllReady(s', front + [last]) && forall id | !HasGroup(front + [last], id) :: Unknown(s', id)
  {
    var groups := front + [last];
    forall i | 0 <= i < |groups|
      ensures IsBatch(groups[i]) && ReadyAt(s', groups[i][0].sourceId, groups[i][0].initialVersion)
    {
      if i < |front| {
        assert groups[i] == front[i] && groups[|front|] == last;
        assert SameSource(s, s', front[i][0].sourceId);
      }
    }
    forall id | !HasGroup(groups, id)
      ensures Unknown(s', id)
    {
      assert groups[|front|] == last;
      assert HasGroup(front, id) ==> HasGroup(groups, id) by {
        assert forall i | 0 <= i < |front| :: groups[i] == front[i];
      }
      assert SameSource(s, s', id);
    }
  }

  // ----- Storing the unit of work under test -----

  lemma GroupsOfUnit(unit: Unit)
    requires IsUnit(unit)
    ensures var groups := GroupBySource(unit.stream);
      && DistinctSources(groups) && AreSourcesOf(groups, unit.stream)
      && forall i | 0 <= i < |groups| :: IsBatch(groups[i])
  {
    var groups := GroupBySource(unit.stream);
    GroupsAreSources(unit.stream);
    forall i | 0 <= i < |groups|
      ensures IsBatch(groups[i])
    {
      GroupMembers(unit.stream, groups[i]);
    }
  }

  lemma SourceIsReady(s: System, unit: Unit, id: Guid)
    requires IsUnit(unit) && AllReady(s, GroupBySource(unit.stream)) && OfSource(unit.stream, id) != []
    ensures var es := OfSource(unit.stream, id);
      && IsBatch(es) && es[0].sourceId == id && ReadyAt(s, id, es[0].initialVersion) && Accepts(s.race.db, es)
  {
    GroupsOfUnit(unit);
    GroupIsSource(unit.stream, GroupBySource(unit.stream), id);
    SourceIsBatch(unit, id);
  }

  lemma ReadyMayStore(s: System, unit: Unit)
    requires IsUnit(unit) && AllReady(s, GroupBySource(unit.stream))
    ensures MayStore(s, unit)
  {
    forall i | 0 <= i < |unit.stream|
      ensures BatchIsReady(s, unit.stream[i].sourceId, OfSource(unit.stream, unit.stream[i].sourceId))
    {
      SourceMembers(unit.stream, unit.stream[i].sourceId, unit.stream[i]);
      SourceIsReady(s, unit, unit.stream[i].sourceId);
    }
    ReadyMayBegin(s, unit);
    ReadyIsStored(s.race.db, unit.stream);
  }

  /** The batch's version is stored, recorded and loaded. */
  ghost predicate BatchIsReady(s: System, id: Guid, es: seq<UncommittedEvent>) {
    IsBatch(es) && ReadyAt(s, id, es[0].initialVersion) && Accepts(s.race.db, es)
  }

  lemma ReadyMayBegin(s: System, unit: Unit)
    requires IsUnit(unit)
    requires forall i | 0 <= i < |unit.stream| ::
      BatchIsReady(s, unit.stream[i].sourceId, OfSource(unit.stream, unit.stream[i].sourceId))
    ensures MayBegin(s, unit) && IsLoaded(s.race, unit.stream)
  {
  }

  lemma ReadyIsStored(db: Db, stream: seq<UncommittedEvent>)
    requires forall i | 0 <= i < |stream| ::
      var es := OfSource(stream, stream[i].sourceId); es != [] && Accepts(db, es)
    ensures Store(db, stream).outcome == Stored
  {
    StoredStream(db, stream, 0);
  }

  /** All the sources are made ready, and then the unit of work stores its stream. */
  lemma {:induction false} StoresUnit(unit: Unit, units: set<Unit>)
    returns (steps: seq<Act>, before: System, s: System)
    requires IsUnit(unit) && unit in units && HasFirst(GroupBySource(unit.stream), units)
    ensures Calm(steps, s, units) && AllReady(before, GroupBySource(unit.stream))
    ensures s.race.db == Store(before.race.db, unit.stream).db && Store(before.race.db, unit.stream).outcome == Stored
    ensures |s.plans| > 0 && s.plans[|s.plans| - 1] == unit.snapshots
    ensures s.race.writers[|s.plans| - 1] == Writer([], Reading)
  {
    StartsCalm(units);
    GroupsOfUnit(unit);
    steps, before := PrepareAll([], NewSystem(), units, GroupBySource(unit.stream));
    steps, s := StoresReady(steps, before, units, unit);
  }

  lemma StartsCalm(units: set<Unit>)
    ensures Calm([], NewSystem(), units) && forall id :: Unknown(NewSystem(), id)
  {
    assert MongoRace.Run(MongoRace.Init(), []) == NewSystem().race;
  }

  lemma {:induction false} StoresReady(steps: seq<Act>, s: System, units: set<Unit>, unit: Unit)
    returns (steps': seq<Act>, s': System)
    requires Calm(steps, s, units) && unit in units && IsUnit(unit) && AllReady(s, GroupBySource(unit.stream))
    ensures Calm(steps', s', units)
    ensures s'.race.db == Store(s.race.db, unit.stream).db && Store(s.race.db, unit.stream).outcome == Stored
    ensures |s'.plans| > 0 && s'.plans[|s'.plans| - 1] == unit.snapshots
    ensures s'.race.writers[|s'.plans| - 1] == Writer([], Reading)
  {
    ReadyMayStore(s, unit);
    steps', s' := Stores(steps, s, units, unit);
  }

  lemma SourceIsStored(before: System, db: Db, unit: Unit, id: Guid)
    requires IsUnit(unit) && AllReady(before, GroupBySource(unit.stream)) && OfSource(unit.stream, id) != []
    requires db == Store(before.race.db, unit.stream).db && Store(before.race.db, unit.stream).outcome == Stored
    ensures var es, stored := OfSource(unit.stream, id), StoredEvents(before.race.db.events, id);
      && |stored| == es[0].initialVersion && NumberedUpTo(stored, |stored|)
      && StoredEvents(db.events, id) == stored + AllCommitted(es) && GetVersion(db, id) == Some(NewVersion(es))
  {
    SourceIsReady(before, unit, id);
    StoredStream(before.race.db, unit.stream, id);
  }

  lemma NumberedOn(stored: seq<CommittedEvent>, es: seq<UncommittedEvent>)
    requires NumberedUpTo(stored, |stored|) && IsGapless(es, |stored|)
    ensures NumberedUpTo(stored + AllCommitted(es), |stored| + |es|)
  {
    assert forall i | 0 <= i < |es| :: (stored + AllCommitted(es))[|stored| + i] == Committed(es[i]);
  }

  // ----- A snapshot ahead -----

  /** Everything of the source is stored up to a version, and an aggregate loaded there. */
  ghost predicate Current(s: System, id: Guid, n: nat) {
    && |s.plans| == |s.race.writers| && Reachable(s.race) && CountOf(s.race.db, id) == n && Loadable(s.race.db, id, n)
    && n in LoadedOf(s, id)
  }

  /** The unit of work under test has stored its stream, and another one has loaded the source. */
  lemma {:induction false} StoresAndLoads(unit: Unit, units: set<Unit>, id: Guid, es: seq<UncommittedEvent>,
                                          version: nat)
    returns (steps: seq<Act>, s: System)
    requires TakesAhead(unit, id, es, version) && unit in units && HasFirst(GroupBySource(unit.stream), units)
    ensures Calm(steps, s, units) && Current(s, id, NewVersion(es)) && GetVersion(s.race.db, id) == Some(NewVersion(es))
    ensures |s.plans| > 0 && s.plans[|s.plans| - 1] == unit.snapshots
    ensures s.race.writers[|s.plans| - 1] == Writer([], Reading)
  {
    var before;
    steps, before, s := StoresUnit(unit, units);
    SourceIsStored(before, s.race.db, unit, id);
    NumberedOn(StoredEvents(before.race.db.events, id), es);
    steps, s := LoadsAt(steps, s, units, id, NewVersion(es));
  }

  /** A snapshot beyond everything stored is loaded as it is. */
  lemma {:induction false} LoadsSnapshot(steps: seq<Act>, s: System, units: set<Unit>, id: Guid, version: int)
    returns (steps': seq<Act>, s': System)
    requires Reaches(steps, s, units) && version in SavedOf(s, id)
    requires forall i | 0 <= i < CountOf(s.race.db, id) :: StoredEvents(s.race.db.events, id)[i].sequence <= version
    ensures Reaches(steps', s', units) && steps <= steps'
    ensures s' == s.(loaded := s.loaded[id := LoadedOf(s, id) + {version}])
  {
    SnapshotAloneIsLoaded(StoredEvents(s.race.db.events, id), version);
    steps', s' := Do(steps, s, units, Load(id, Some(version), version));
  }

  lemma SnapshotAloneIsLoaded(stored: seq<CommittedEvent>, version: int)
    requires forall i | 0 <= i < |stored| :: stored[i].sequence <= version
    ensures LoadedVersion(stored, Some(version), version) == Some(version)
  {
    NothingRead(stored, version + 1, version);
    NothingReplayed(version);
  }

  /** A snapshot is saved and an aggregate loaded through it. */
  lemma {:induction false} SavesAndLoads(steps: seq<Act>, s: System, units: set<Unit>, w: nat, id: Guid, version: nat)
    returns (steps': seq<Act>, s': System)
    requires Reaches(steps, s, units) && w < |s.plans| && w < |s.race.writers|
    requires s.race.writers[w] == Writer([], Reading) && id in s.plans[w] && s.plans[w][id] == version
    requires NumberedUpTo(StoredEvents(s.race.db.events, id), CountOf(s.race.db, id))
    requires CountOf(s.race.db, id) <= version
    ensures Reaches(steps', s', units) && s'.race == s.race && s'.plans == s.plans
    ensures steps < steps' && steps'[|steps|] == SaveSnapshot(w, id)
    ensures version in LoadedOf(s', id) && LoadedOf(s, id) <= LoadedOf(s', id)
  {
    steps', s' := Do(steps, s, units, SaveSnapshot(w, id));
    steps', s' := LoadsSnapshot(steps', s', units, id, version);
  }

  /** A batch of one source on top of a version, that leads to another. */
  ghost predicate Leads(es: seq<UncommittedEvent>, id: Guid, from: nat, to: nat) {
    IsBatch(es) && es[0].sourceId == id && es[0].initialVersion == from && NewVersion(es) == to
  }

  lemma EventsLead(id: Guid, n: nat, k: nat)
    requires k > 0
    ensures Leads(Events(id, n, k), id, n, n + k)
  {
  }

  /** Another writer has recorded as many versions as the snapshot is ahead, and is still to save their events; an
      aggregate was loaded through the snapshot. */
  ghost predicate IsOvertaken(s: System, id: Guid, n: nat, version: nat, b: nat, others: seq<UncommittedEvent>) {
    && |s.plans| == |s.race.writers| && b + 1 == |s.race.writers| && Reachable(s.race)
    && s.race.writers[b] == Writer([others], Saving(0))
    && (forall x: nat | x < b :: s.race.writers[x].groups == [])
    && CountOf(s.race.db, id) == n && GetVersion(s.race.db, id) == Some(version) && version in LoadedOf(s, id)
  }

  /** The snapshot is saved and an aggregate loaded through it. */
  lemma {:induction false} LoadsAhead(unit: Unit, units: set<Unit>, id: Guid, es: seq<UncommittedEvent>, version: nat)
    returns (steps: seq<Act>, s: System)
    requires TakesAhead(unit, id, es, version) && unit in units && HasFirst(GroupBySource(unit.stream), units)
    ensures Reaches(steps, s, units) && Quiet(s) && Current(s, id, NewVersion(es))
    ensures GetVersion(s.race.db, id) == Some(NewVersion(es)) && version in LoadedOf(s, id)
  {
    steps, s := StoresAndLoads(unit, units, id, es, version);
    steps, s := LoadsPast(steps, s, units, id, NewVersion(es), version);
  }

  lemma {:induction false} LoadsPast(steps: seq<Act>, s: System, units: set<Unit>, id: Guid, n: nat, version: nat)
    returns (steps': seq<Act>, s': System)
    requires Reaches(steps, s, units) && Quiet(s) && Current(s, id, n) && n <= version
    requires |s.plans| > 0 && s.race.writers[|s.plans| - 1] == Writer([], Reading)
    requires id in s.plans[|s.plans| - 1] && s.plans[|s.plans| - 1][id] == version
    ensures Reaches(steps', s', units) && Quiet(s') && Current(s', id, n)
    ensures s'.race == s.race && version in LoadedOf(s', id)
  {
    steps', s' := SavesAndLoads(steps, s, units, |s.plans| - 1, id, version);
    StaysCurrent(s, s', id, n);
  }

  lemma StaysCurrent(s: System, s': System, id: Guid, n: nat)
    requires Quiet(s) && Current(s, id, n) && s'.race == s.race && s'.plans == s.plans
    requires LoadedOf(s, id) <= LoadedOf(s', id)
    ensures Quiet(s') && Current(s', id, n)
  {
  }

  lemma {:induction false} GetsOvertaken(unit: Unit, units: set<Unit>, id: Guid, es: seq<UncommittedEvent>,
                                         version: nat, others: seq<UncommittedEvent>)
    returns (steps: seq<Act>, s: System, b: nat)
    requires TakesAhead(unit, id, es, version) && Leads(others, id, NewVersion(es), version)
    requires unit in units && HasFirst(GroupBySource(unit.stream), units) && Unit(others, map[]) in units
    ensures Reaches(steps, s, units) && IsOvertaken(s, id, NewVersion(es), version, b, others)
  {
    steps, s := LoadsAhead(unit, units, id, es, version);
    b := |s.race.writers|;
    steps, s := OthersWin(steps, s, units, id, NewVersion(es), version, others);
  }

  lemma {:induction false} OthersWin(steps: seq<Act>, s: System, units: set<Unit>, id: Guid, n: nat, version: nat,
                                     others: seq<UncommittedEvent>)
    returns (steps': seq<Act>, s': System)
    requires Reaches(steps, s, units) && Quiet(s) && Current(s, id, n) && GetVersion(s.race.db, id) == Some(n)
    requires Leads(others, id, n, version) && Unit(others, map[]) in units && version in LoadedOf(s, id)
    ensures Reaches(steps', s', units) && IsOvertaken(s', id, n, version, |s.race.writers|, others)
  {
    steps', s' := Wins(steps, s, units, Unit(others, map[]), others);
    var b := |s.race.writers|;
    assert forall x: nat | x < b :: s'.race.writers[x] == s.race.writers[x];
  }

  /** The aggregate loaded through the snapshot hands over its events: its version is the recorded one. */
  lemma {:induction false} WinsThroughSnapshot(steps: seq<Act>, s: System, units: set<Unit>, id: Guid, version: nat,
                                               es: seq<UncommittedEvent>)
    returns (steps': seq<Act>, s': System)
    requires Reaches(steps, s, units) && |s.plans| == |s.race.writers| && Unit(es, map[]) in units
    requires GetVersion(s.race.db, id) == Some(version) && version in LoadedOf(s, id)
    requires IsBatch(es) && es[0].sourceId == id && es[0].initialVersion == version
    ensures Reaches(steps', s', units) && steps <= steps'
    ensures s'.race.writers == s.race.writers + [Writer([es], Saving(0))]
    ensures s'.race.db.events == s.race.db.events && |WinsOf(s'.race, id)| == |WinsOf(s.race, id)| + 1
  {
    steps', s' := Wins(steps, s, units, Unit(es, map[]), es);
  }

  /** A writer saves the first event of its batch. */
  lemma {:induction false} SavesFirst(steps: seq<Act>, s: System, units: set<Unit>, w: nat, es: seq<UncommittedEvent>)
    returns (steps': seq<Act>, s': System)
    requires Reaches(steps, s, units)
    requires w < |s.race.writers| && es != [] && s.race.writers[w] == Writer([es], Saving(0))
    ensures Reaches(steps', s', units)
    ensures StoredEvents(s'.race.db.events, es[0].sourceId) ==
            StoredEvents(s.race.db.events, es[0].sourceId) + [Committed(es[0])]
    ensures |s'.race.writers| == |s.race.writers|
    ensures forall x: nat | x < |s.race.writers| && x != w :: s'.race.writers[x] == s.race.writers[x]
  {
    SaveAlone(s.race, w, s.race.db, [es], 0);
    AloneLeavesOthers(s.race, w, 2);
    SavedEvent(s.race.db, es[0], es[0].sourceId);
    steps', s' := DoAlone(steps, s, units, w, 2);
  }

  // ----- What goes wrong -----

  /** The units of work that store what the one under test was applied to. */
  function FirstUnits(unit: Unit): set<Unit>
    requires IsUnit(unit)
  {
    GroupsOfUnit(unit);
    var groups := GroupBySource(unit.stream);
    set i | 0 <= i < |groups| :: Unit(Events(groups[i][0].sourceId, 0, groups[i][0].initialVersion), map[])
  }

  /** The units of work of the runs below; all but the one under test are tidy. */
  function Cast(unit: Unit, id: Guid, n: nat, version: nat): set<Unit>
    requires IsUnit(unit) && version > n
  {
    {unit, Unit(Events(id, n, version - n), map[]), Unit(Events(id, version, 1), map[])} + FirstUnits(unit)
  }

  lemma CastHasFirst(unit: Unit, id: Guid, n: nat, version: nat)
    requires IsUnit(unit) && version > n
    ensures HasFirst(GroupBySource(unit.stream), Cast(unit, id, n, version))
  {
    GroupsOfUnit(unit);
  }

  lemma {:induction false} CastIsTidy(steps: seq<Act>, unit: Unit, id: Guid, n: nat, version: nat)
    requires IsUnit(unit) && version > n && OnlyFrom(steps, Cast(unit, id, n, version))
    ensures TidyBut(steps, unit) && SafeBut(steps, unit)
  {
    forall other | other in Cast(unit, id, n, version) && other != unit
      ensures TidyUnit(other)
    {
      CastMemberIsTidy(unit, id, n, version, other);
    }
  }

  lemma CastMemberIsTidy(unit: Unit, id: Guid, n: nat, version: nat, other: Unit)
    requires IsUnit(unit) && version > n && other in Cast(unit, id, n, version) && other != unit
    ensures TidyUnit(other)
  {
    EventsAreTidy(id, n, version - n);
    EventsAreTidy(id, version, 1);
    if other != Unit(Events(id, n, version - n), map[]) && other != Unit(Events(id, version, 1), map[]) {
      FirstIsTidy(unit, other);
    }
  }

  lemma FirstIsTidy(unit: Unit, other: Unit)
    requires IsUnit(unit) && other in FirstUnits(unit)
    ensures TidyUnit(other)
  {
    GroupsOfUnit(unit);
    var groups: seq<seq<UncommittedEvent>> := GroupBySource(unit.stream);
    var i: int :| 0 <= i < |groups| &&
                  other == Unit(Events(groups[i][0].sourceId, 0, groups[i][0].initialVersion), map[]);
    EventsAreTidy(groups[i][0].sourceId, 0, groups[i][0].initialVersion);
  }

  lemma BothHold(race: State, id: Guid, b: nat)
    requires b + 2 == |race.writers| && Holds(race.writers[b], id) && Holds(race.writers[b + 1], id)
    ensures !OneHolder(race, id)
  {
  }

  /** Two writers hold the source. */
  lemma {:induction false} TwoHolders(unit: Unit, id: Guid, es: seq<UncommittedEvent>, version: nat)
    returns (steps: seq<Act>)
    requires TakesAhead(unit, id, es, version)
    ensures TidyBut(steps, unit) && SafeBut(steps, unit)
    ensures !OneHolder(AfterAll(NewSystem(), steps).race, id)
  {
    var n := NewVersion(es);
    var units, others, one := Cast(unit, id, n, version), Events(id, n, version - n), Events(id, version, 1);
    var s, b;
    CastHasFirst(unit, id, n, version);
    EventsLead(id, n, version - n);
    EventsLead(id, version, 1);
    steps, s, b := GetsOvertaken(unit, units, id, es, version, others);
    steps, s := WinsThroughSnapshot(steps, s, units, id, version, one);
    CastIsTidy(steps, unit, id, n, version);
    BothHold(s.race, id, b);
  }

  /** So they do when the snapshot is saved only after the other writer has recorded its version. */
  lemma {:induction false} RecordedIsNotEnough(unit: Unit, id: Guid, es: seq<UncommittedEvent>, version: nat)
    returns (before: seq<Act>, steps: seq<Act>)
    requires TakesAhead(unit, id, es, version)
    ensures TidyBut(steps, unit) && SafeBut(steps, unit)
    ensures before < steps && steps[|before|].SaveSnapshot? && AfterAll(NewSystem(), before).saved == map[]
    ensures GetVersion(AfterAll(NewSystem(), before).race.db, id) == Some(version)
    ensures !OneHolder(AfterAll(NewSystem(), steps).race, id)
  {
    var n := NewVersion(es);
    EventsLead(id, n, version - n);
    EventsLead(id, version, 1);
    CastHasFirst(unit, id, n, version);
    before, steps := SavesLate(unit, Cast(unit, id, n, version), id, es, version, Events(id, n, version - n),
                               Events(id, version, 1));
    CastIsTidy(steps, unit, id, n, version);
  }

  lemma {:induction false} RecordsFirst(unit: Unit, units: set<Unit>, id: Guid, es: seq<UncommittedEvent>,
                                        version: nat, others: seq<UncommittedEvent>)
    returns (steps: seq<Act>, s: System, u: nat)
    requires TakesAhead(unit, id, es, version) && Leads(others, id, NewVersion(es), version)
    requires unit in units && HasFirst(GroupBySource(unit.stream), units) && Unit(others, map[]) in units
    ensures Reaches(steps, s, units) && s.saved == map[] && |s.plans| == |s.race.writers| == u + 2
    ensures s.race.writers[u] == Writer([], Reading) && s.plans[u] == unit.snapshots
    ensures s.race.writers[u + 1] == Writer([others], Saving(0)) && GetVersion(s.race.db, id) == Some(version)
    ensures NumberedUpTo(StoredEvents(s.race.db.events, id), CountOf(s.race.db, id))
    ensures CountOf(s.race.db, id) <= version
  {
    steps, s := StoresAndLoads(unit, units, id, es, version);
    u := |s.plans| - 1;
    steps, s := Wins(steps, s, units, Unit(others, map[]), others);
  }

  lemma {:induction false} SavesLate(unit: Unit, units: set<Unit>, id: Guid, es: seq<UncommittedEvent>, version: nat,
                                     others: seq<UncommittedEvent>, one: seq<UncommittedEvent>)
    returns (before: seq<Act>, steps: seq<Act>)
    requires TakesAhead(unit, id, es, version) && Leads(others, id, NewVersion(es), version)
    requires Leads(one, id, version, version + 1) && unit in units && HasFirst(GroupBySource(unit.stream), units)
    requires Unit(others, map[]) in units && Unit(one, map[]) in units
    ensures OnlyFrom(steps, units) && before < steps && steps[|before|].SaveSnapshot?
    ensures AfterAll(NewSystem(), before).saved == map[]
    ensures GetVersion(AfterAll(NewSystem(), before).race.db, id) == Some(version)
    ensures !OneHolder(AfterAll(NewSystem(), steps).race, id)
  {
    var s, u;
    before, s, u := RecordsFirst(unit, units, id, es, version, others);
    steps, s := SavesAndLoads(before, s, units, u, id, version);
    steps, s := WinsThroughSnapshot(steps, s, units, id, version, one);
    BothHold(s.race, id, u + 1);
  }

  /** The event through the snapshot is saved first, then one of the other writer's. */
  lemma {:induction false} SavesLateThenEarly(unit: Unit, units: set<Unit>, id: Guid, es: seq<UncommittedEvent>,
                                              version: nat, late: seq<UncommittedEvent>, early: seq<UncommittedEvent>)
    returns (gapped: seq<Act>, swapped: seq<Act>, before: seq<CommittedEvent>)
    requires TakesAhead(unit, id, es, version) && Leads(early, id, NewVersion(es), version)
    requires Leads(late, id, version, version + 1) && unit in units && HasFirst(GroupBySource(unit.stream), units)
    requires Unit(early, map[]) in units && Unit(late, map[]) in units
    ensures OnlyFrom(gapped, units) && OnlyFrom(swapped, units) && |before| == NewVersion(es)
    ensures StoredEvents(AfterAll(NewSystem(), gapped).race.db.events, id) == before + [Committed(late[0])]
    ensures StoredEvents(AfterAll(NewSystem(), swapped).race.db.events, id) ==
            before + [Committed(late[0])] + [Committed(early[0])]
  {
    var steps, s, b := GetsOvertaken(unit, units, id, es, version, early);
    before := StoredEvents(s.race.db.events, id);
    steps, s := WinsThroughSnapshot(steps, s, units, id, version, late);
    gapped, s := SavesFirst(steps, s, units, b + 1, late);
    swapped, s := SavesFirst(gapped, s, units, b, early);
  }

  /** An event is stored after a gap, and then one out of order. */
  lemma {:induction false} OutOfOrder(unit: Unit, id: Guid, es: seq<UncommittedEvent>, version: nat)
    returns (gapped: seq<Act>, swapped: seq<Act>)
    requires TakesAhead(unit, id, es, version)
    ensures TidyBut(gapped, unit) && SafeBut(gapped, unit) && TidyBut(swapped, unit) && SafeBut(swapped, unit)
    ensures !Numbered(StoredEvents(AfterAll(NewSystem(), gapped).race.db.events, id))
    ensures !IsAscending(id, StoredEvents(AfterAll(NewSystem(), swapped).race.db.events, id))
  {
    var n := NewVersion(es);
    var late, early := Events(id, version, 1), Events(id, n, version - n);
    EventsLead(id, n, version - n);
    EventsLead(id, version, 1);
    CastHasFirst(unit, id, n, version);
    var before;
    gapped, swapped, before := SavesLateThenEarly(unit, Cast(unit, id, n, version), id, es, version, late, early);
    CastIsTidy(gapped, unit, id, n, version);
    CastIsTidy(swapped, unit, id, n, version);
    LateThenEarly(id, before, late[0], early[0]);
  }

  lemma LateThenEarly(id: Guid, stored: seq<CommittedEvent>, late: UncommittedEvent, early: UncommittedEvent)
    requires late.sequence > |stored| + 1 && early.sequence < late.sequence
    ensures !Numbered(stored + [Committed(late)])
    ensures !IsAscending(id, stored + [Committed(late)] + [Committed(early)])
  {
    assert (stored + [Committed(late)])[|stored|].sequence != |stored| + 1;
    var longer := stored + [Committed(late)] + [Committed(early)];
    assert longer[|stored|] == Committed(late) && longer[|stored| + 1] == Committed(early);
  }

  /** A source cut short by a crash gets a new winner. */
  lemma {:induction false} CutShortIsWon(unit: Unit, id: Guid, es: seq<UncommittedEvent>, version: nat)
    returns (steps: seq<Act>, more: seq<Act>)
    requires TakesAhead(unit, id, es, version)
    ensures SafeBut(steps, unit) && SafeBut(more, unit)
    ensures CutShort(AfterAll(NewSystem(), steps).race, id)
    ensures WinsOf(AfterAll(AfterAll(NewSystem(), steps), more).race, id) !=
            WinsOf(AfterAll(NewSystem(), steps).race, id)
  {
    var n := NewVersion(es);
    var units, others := Cast(unit, id, n, version), Events(id, n, version - n);
    var s, b;
    CastHasFirst(unit, id, n, version);
    EventsLead(id, n, version - n);
    EventsLead(id, version, 1);
    steps, s, b := GetsOvertaken(unit, units, id, es, version, others);
    var overtaken := s;
    steps, s := Do(steps, s, units, Die(b));
    CrashCutsShort(overtaken, id, n, version, b, others);
    CastIsTidy(steps, unit, id, n, version);
    var all, s' := WinsThroughSnapshot(steps, s, units, id, version, Events(id, version, 1));
    CastIsTidy(all, unit, id, n, version);
    more := all[|steps|..];
    assert all == steps + more;
    AfterConcat(NewSystem(), steps, more);
    TailIsSafe(steps, more, unit);
  }

  lemma {:induction false} TailIsSafe(steps: seq<Act>, more: seq<Act>, unit: Unit)
    requires SafeBut(steps + more, unit)
    ensures SafeBut(more, unit)
  {
    assert forall i | 0 <= i < |more| :: more[i] == (steps + more)[|steps| + i];
  }

  lemma CrashCutsShort(s: System, id: Guid, n: nat, version: nat, b: nat, others: seq<UncommittedEvent>)
    requires IsOvertaken(s, id, n, version, b, others) && version > n
    ensures CutShort(After(s, Die(b)).race, id)
    ensures GetVersion(After(s, Die(b)).race.db, id) == Some(version) && version in LoadedOf(After(s, Die(b)), id)
    ensures |After(s, Die(b)).plans| == |After(s, Die(b)).race.writers|
  {
    ReachableKeeps(s.race);
    assert SourceOk(id, StoredEvents(s.race.db.events, id), GetVersion(s.race.db, id), WinsOf(s.race, id));
    var race' := After(s, Die(b)).race;
    assert WinsOf(race', id) == WinsOf(s.race, id);
    forall w: nat | w < |race'.writers|
      ensures !Holds(race'.writers[w], id)
    {
      assert w < b ==> race'.writers[w] == s.race.writers[w];
    }
  }

  // ----- An event stored twice -----

  /** Event 3 is stored twice: after event 1 a snapshot of version 2 is saved; then an aggregate loaded at version 1
      uses up a number and emits event 3, and one loaded through the snapshot emits event 3. */
  lemma {:induction false} StoredTwice(id: Guid) returns (steps: seq<Act>)
    ensures SafeBut(steps, Unit([UncommittedEvent(id, 1, 0, "")], map[id := 2]))
    ensures var stored := StoredEvents(AfterAll(NewSystem(), steps).race.db.events, id);
      |stored| == 3 && stored[1] == stored[2] == CommittedEvent(id, 3, "")
  {
    var one, late := UncommittedEvent(id, 1, 0, ""), UncommittedEvent(id, 3, 2, "");
    var early := UncommittedEvent(id, 3, 1, "");
    OneEventLeads(one);
    OneEventLeads(late);
    OneEventLeads(early);
    OneEventTakesAhead(id, one, Unit([one], map[id := 2]));
    steps := StoresTwice(id, one, late, early, Unit([one], map[id := 2]));
  }

  lemma {:induction false} StoresTwice(id: Guid, one: UncommittedEvent, late: UncommittedEvent, early: UncommittedEvent,
                                       unit: Unit)
    returns (steps: seq<Act>)
    requires TakesAhead(unit, id, [one], 2) && unit.stream == [one] && GroupBySource([one]) == [[one]]
    requires one.sourceId == id && one.initialVersion == 0
    requires late == UncommittedEvent(id, 3, 2, "") && Leads([late], id, 2, 3)
    requires early == UncommittedEvent(id, 3, 1, "") && Leads([early], id, 1, 2)
    ensures SafeBut(steps, unit)
    ensures var stored := StoredEvents(AfterAll(NewSystem(), steps).race.db.events, id);
      |stored| == 3 && stored[1] == stored[2] == CommittedEvent(id, 3, "")
  {
    var units := {unit, Unit(Events(id, 0, 0), map[]), Unit([early], map[]), Unit([late], map[])};
    OneHasFirst(one, units);
    steps := StoresBoth(id, one, late, early, unit, units);
    OnlyOneSaves(steps, units, unit);
  }

  lemma {:induction false} StoresBoth(id: Guid, one: UncommittedEvent, late: UncommittedEvent, early: UncommittedEvent,
                                      unit: Unit, units: set<Unit>)
    returns (steps: seq<Act>)
    requires TakesAhead(unit, id, [one], 2) && unit in units && HasFirst(GroupBySource(unit.stream), units)
    requires NewVersion([one]) == 1 && Unit([early], map[]) in units && Unit([late], map[]) in units
    requires late == UncommittedEvent(id, 3, 2, "") && Leads([late], id, 2, 3)
    requires early == UncommittedEvent(id, 3, 1, "") && Leads([early], id, 1, 2)
    ensures OnlyFrom(steps, units)
    ensures var stored := StoredEvents(AfterAll(NewSystem(), steps).race.db.events, id);
      |stored| == 3 && stored[1] == stored[2] == CommittedEvent(id, 3, "")
  {
    var _, swapped, before := SavesLateThenEarly(unit, units, id, [one], 2, [late], [early]);
    steps := swapped;
  }

  lemma OneHasFirst(one: UncommittedEvent, units: set<Unit>)
    requires IsBatch([one]) && one.initialVersion == 0 && Unit(Events(one.sourceId, 0, 0), map[]) in units
    ensures HasFirst([[one]], units)
  {
  }

  lemma OneEventLeads(e: UncommittedEvent)
    requires 0 <= e.initialVersion < e.sequence
    ensures Leads([e], e.sourceId, e.initialVersion, e.initialVersion + 1)
  {
  }

  lemma OneEventTakesAhead(id: Guid, one: UncommittedEvent, unit: Unit)
    requires one == UncommittedEvent(id, 1, 0, "") && unit == Unit([one], map[id := 2])
    ensures TakesAhead(unit, id, [one], 2) && GroupBySource([one]) == [[one]]
  {
    OneEventLeads(one);
    OneSourceThroughout([one]);
  }

  lemma {:induction false} OnlyOneSaves(steps: seq<Act>, units: set<Unit>, unit: Unit)
    requires OnlyFrom(steps, units) && forall u | u in units :: u == unit || u.snapshots == map[]
    ensures SafeBut(steps, unit)
  {
  }

  // ----- Safe snapshots are exactly the ones that break nothing -----

  ghost predicate AllAscending(s: System) {
    forall id :: IsAscending(id, StoredEvents(s.race.db.events, id))
  }

  ghost predicate OneHolderEach(s: System) {
    forall id :: OneHolder(s.race, id)
  }

  ghost predicate AllNumbered(s: System) {
    forall id :: Numbered(StoredEvents(s.race.db.events, id))
  }

  /** In no continuation does a source that is sealed get a new winner. */
  ghost predicate SealedForGood(s: System, unit: Unit) {
    forall more, id | SafeBut(more, unit) && Sealed(s.race, id) ::
      WinsOf(AfterAll(s, more).race, id) == WinsOf(s.race, id)
  }

  lemma AllSafe(steps: seq<Act>, unit: Unit)
    requires SafeBut(steps, unit) && SafeUnit(unit)
    ensures Safe(steps)
  {
  }

  lemma AllTidy(steps: seq<Act>, unit: Unit)
    requires TidyBut(steps, unit) && TidyUnit(unit)
    ensures Tidy(steps)
  {
  }

  /** Stored numbers go up, and none is stored twice, in all runs whose other units of work are safe, exactly when this
      one is: each of its snapshots is of the version its batch leads to, or its batch has a gap. */
  lemma AscendingExactlyForSafeSnapshots(unit: Unit)
    requires IsUnit(unit)
    ensures SafeUnit(unit) <==> forall steps | SafeBut(steps, unit) :: AllAscending(AfterAll(NewSystem(), steps))
  {
    if SafeUnit(unit) {
      forall steps | SafeBut(steps, unit)
        ensures AllAscending(AfterAll(NewSystem(), steps))
      {
        AllSafe(steps, unit);
        forall id
          ensures IsAscending(id, StoredEvents(AfterAll(NewSystem(), steps).race.db.events, id))
        {
          SafeIsAscending(steps, id);
        }
      }
    } else {
      var id, es, version := UnsafeTakesAhead(unit);
      var _, swapped := OutOfOrder(unit, id, es, version);
      assert !AllAscending(AfterAll(NewSystem(), swapped));
    }
  }

  /** So does one writer at most hold a source. */
  lemma OneHolderExactlyForSafeSnapshots(unit: Unit)
    requires IsUnit(unit)
    ensures SafeUnit(unit) <==> forall steps | SafeBut(steps, unit) :: OneHolderEach(AfterAll(NewSystem(), steps))
  {
    if SafeUnit(unit) {
      forall steps | SafeBut(steps, unit)
        ensures OneHolderEach(AfterAll(NewSystem(), steps))
      {
        AllSafe(steps, unit);
        forall id
          ensures OneHolder(AfterAll(NewSystem(), steps).race, id)
        {
          SafeHasOneHolder(steps, id);
        }
      }
    } else {
      var id, es, version := UnsafeTakesAhead(unit);
      var steps := TwoHolders(unit, id, es, version);
      assert !OneHolderEach(AfterAll(NewSystem(), steps));
    }
  }

  /** So does a source that a gap or a crash has sealed stay so for ever. */
  lemma FinalExactlyForSafeSnapshots(unit: Unit)
    requires IsUnit(unit)
    ensures SafeUnit(unit) <==> forall steps | SafeBut(steps, unit) :: SealedForGood(AfterAll(NewSystem(), steps), unit)
  {
    if SafeUnit(unit) {
      forall steps | SafeBut(steps, unit)
        ensures SealedForGood(AfterAll(NewSystem(), steps), unit)
      {
        forall more, id | SafeBut(more, unit) && Sealed(AfterAll(NewSystem(), steps).race, id)
          ensures WinsOf(AfterAll(AfterAll(NewSystem(), steps), more).race, id) ==
                  WinsOf(AfterAll(NewSystem(), steps).race, id)
        {
          SafeStaysSealed(steps, more, unit, id);
        }
      }
    } else {
      var id, es, version := UnsafeTakesAhead(unit);
      var steps, more := CutShortIsWon(unit, id, es, version);
      assert !SealedForGood(AfterAll(NewSystem(), steps), unit);
    }
  }

  lemma {:induction false} SafeStaysSealed(steps: seq<Act>, more: seq<Act>, unit: Unit, id: Guid)
    requires SafeUnit(unit) && SafeBut(steps, unit) && SafeBut(more, unit)
    requires Sealed(AfterAll(NewSystem(), steps).race, id)
    ensures WinsOf(AfterAll(AfterAll(NewSystem(), steps), more).race, id) ==
            WinsOf(AfterAll(NewSystem(), steps).race, id)
  {
    AllSafe(steps, unit);
    AllSafe(more, unit);
    var race := SafeRunIsRace(steps);
    SafeSealedIsForever(AfterAll(NewSystem(), steps), more, id);
  }

  /** All sources are numbered 1, 2, ... in all runs whose other units of work are tidy exactly when this one is: its
      batches have no gap, and its snapshots are of the versions they lead to. */
  lemma NumberedExactlyForTidyUnits(unit: Unit)
    requires IsUnit(unit)
    ensures TidyUnit(unit) <==> forall steps | TidyBut(steps, unit) :: AllNumbered(AfterAll(NewSystem(), steps))
  {
    if TidyUnit(unit) {
      forall steps | TidyBut(steps, unit)
        ensures AllNumbered(AfterAll(NewSystem(), steps))
      {
        AllTidy(steps, unit);
        forall id
          ensures Numbered(StoredEvents(AfterAll(NewSystem(), steps).race.db.events, id))
        {
          TidyIsNumbered(steps, id);
        }
      }
    } else if !SafeUnit(unit) {
      var id, es, version := UnsafeTakesAhead(unit);
      var gapped, _ := OutOfOrder(unit, id, es, version);
      assert !AllNumbered(AfterAll(NewSystem(), gapped));
    } else {
      var id, steps := StoresGap(unit);
      assert !AllNumbered(AfterAll(NewSystem(), steps));
    }
  }

  lemma GapIn(unit: Unit) returns (id: Guid)
    requires IsUnit(unit) && !GaplessStream(unit.stream)
    ensures var es := OfSource(unit.stream, id); es != [] && IsBatch(es) && !IsGapless(es, es[0].initialVersion)
  {
    var i :| 0 <= i < |unit.stream| &&
             (var group := OfSource(unit.stream, unit.stream[i].sourceId);
              !(group != [] && IsGapless(group, group[0].initialVersion)));
    id := unit.stream[i].sourceId;
    assert IsBatch(OfSource(unit.stream, unit.stream[i].sourceId));
  }

  /** The units of work that a stream's sources are prepared by, and the one under test. */
  function Company(unit: Unit): set<Unit>
    requires IsUnit(unit)
  {
    Cast(unit, 0, 0, 1)
  }

  /** A batch with a gap is stored. */
  lemma {:induction false} StoresGap(unit: Unit) returns (id: Guid, steps: seq<Act>)
    requires IsUnit(unit) && !GaplessStream(unit.stream)
    ensures TidyBut(steps, unit)
    ensures !Numbered(StoredEvents(AfterAll(NewSystem(), steps).race.db.events, id))
  {
    id := GapIn(unit);
    CastHasFirst(unit, 0, 0, 1);
    var before, s;
    steps, before, s := StoresUnit(unit, Company(unit));
    SourceIsStored(before, s.race.db, unit, id);
    NotNumbered(StoredEvents(before.race.db.events, id), OfSource(unit.stream, id));
    CastIsTidy(steps, unit, 0, 0, 1);
  }

  lemma NotNumbered(stored: seq<CommittedEvent>, es: seq<UncommittedEvent>)
    requires !IsGapless(es, |stored|)
    ensures !Numbered(stored + AllCommitted(es))
  {
    var i :| 0 <= i < |es| && es[i].sequence != |stored| + 1 + i;
    assert (stored + AllCommitted(es))[|stored| + i] == Committed(es[i]);
  }

  /** Being tidy, said by the batches. */
  lemma TidyExactly(unit: Unit)
    requires IsUnit(unit)
    ensures TidyUnit(unit) <==>
      && GaplessStream(unit.stream)
      && forall id | id in unit.snapshots :: unit.snapshots[id] == NewVersion(OfSource(unit.stream, id))
  {
    forall id | id in unit.snapshots
      ensures exists i :: 0 <= i < |unit.stream| && unit.stream[i].sourceId == id
    {
      SourceOccurs(unit.stream, id);
    }
  }
}
