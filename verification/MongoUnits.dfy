/** Whole units of work on the MongoDB event store: they load aggregates, directly or through snapshots, store, and save
    snapshots of what they hold. */
module MongoUnits {
  import opened Common
  import opened EventStreams
  import opened MongoStore
  import opened MongoRace

  /** What a unit of work hands to Store, and the aggregates the policy picks for a snapshot, with their versions. */
  datatype Unit = Unit(stream: seq<UncommittedEvent>, snapshots: map<Guid, int>)

  const NOTHING := Unit([], map[])

  /** `plans`: per writer, the snapshots its unit of work takes in the end. `saved`: the versions of the snapshots saved
      of each source. `loaded`: the versions at which some aggregate was loaded. */
  datatype System = System(race: MongoRace.State, plans: seq<map<Guid, int>>, saved: map<Guid, set<int>>,
                         loaded: map<Guid, set<int>>)

  function NewSystem(): System {
    System(MongoRace.Init(), [], map[], map[])
  }

  datatype Act =
    | Load(id: Guid, snapshot: Option<int>, maxVersion: int)  // GetById's second read, with what the first one found
    | Accept(unit: Unit)                                      // Accept: the unit of work calls Store
    | Operate(writer: nat)                                    // one database operation of Store
    | SaveSnapshot(writer: nat, id: Guid)                     // CreateSnapshots, after everything is stored
    | Die(writer: nat)                                        // the process stops

  function SavedOf(s: System, id: Guid): set<int> {
    if id in s.saved then s.saved[id] else {}
  }

  function LoadedOf(s: System, id: Guid): set<int> {
    if id in s.loaded then s.loaded[id] else {}
  }

  /** Per source one aggregate's events, on a new aggregate or one loaded before; a snapshot has the version the
      aggregate ended with, at least that of its last event. */
  predicate MayBegin(s: System, unit: Unit) {
    && (forall i | 0 <= i < |unit.stream| ::
          var group := OfSource(unit.stream, unit.stream[i].sourceId);
          && IsBatch(group)
          && (group[0].initialVersion == 0 || group[0].initialVersion in LoadedOf(s, unit.stream[i].sourceId)))
    && forall id | id in unit.snapshots ::
         var group := OfSource(unit.stream, id);
         group != [] && unit.snapshots[id] >= group[|group| - 1].sequence
  }

  function After(s: System, step: Act): System {
    match step
    case Load(id, snapshot, maxVersion) =>
      if snapshot.Some? && snapshot.value !in SavedOf(s, id) then s
      else
        (match LoadedVersion(StoredEvents(s.race.db.events, id), snapshot, maxVersion)
         case Some(n) => s.(loaded := s.loaded[id := LoadedOf(s, id) + {n}])
         case None => s)
    case Accept(unit) =>
      if MayBegin(s, unit) then s.(race := WithWriter(s.race, unit.stream), plans := s.plans + [unit.snapshots]) else s
    case Operate(w) => s.(race := MongoRace.Next(s.race, Progress(w)))
    case SaveSnapshot(w, id) =>
      if w < |s.plans| && w < |s.race.writers| && s.race.writers[w] == Writer([], Reading) && id in s.plans[w] then
        SaveStep(s, id, s.plans[w][id])
      else s
    case Die(w) => s.(race := MongoRace.Next(s.race, Crash(w)))
  }

  function WithWriter(race: MongoRace.State, stream: seq<UncommittedEvent>): MongoRace.State {
    race.(writers := race.writers + [Writer(GroupBySource(stream), Reading)])
  }

  /** The store keeps every snapshot. A load reads the one with the largest version, or none, and the events later: by
      then there may be newer snapshots, so it may go on with any that was saved before. */
  function SaveStep(s: System, id: Guid, version: int): System {
    s.(saved := s.saved[id := SavedOf(s, id) + {version}])
  }

  function AfterAll(s: System, steps: seq<Act>): System {
    if steps == [] then s else After(AfterAll(s, steps[..|steps| - 1]), steps[|steps| - 1])
  }

  lemma AfterMore(s: System, steps: seq<Act>, step: Act)
    ensures AfterAll(s, steps + [step]) == After(AfterAll(s, steps), step)
  {
    assert (steps + [step])[..|steps|] == steps;
  }

  lemma {:induction false} AfterConcat(s: System, steps: seq<Act>, more: seq<Act>)
    ensures AfterAll(s, steps + more) == AfterAll(AfterAll(s, steps), more)
  {
    if more == [] {
      assert steps + more == steps;
    } else {
      assert (steps + more)[..|steps + more| - 1] == steps + more[..|more| - 1];
      AfterConcat(s, steps, more[..|more| - 1]);
    }
  }

  // ----- Units of work whose snapshots are safe -----

  /** The snapshot is of the version the batch itself leads to: no number was used up by a call that threw. A batch
      with a gap closes its source anyway. */
  predicate SafeSnapshot(es: seq<UncommittedEvent>, version: int) {
    es != [] && IsGapless(es, es[0].initialVersion) ==> version == NewVersion(es)
  }

  predicate SafeUnit(unit: Unit) {
    forall id | id in unit.snapshots :: SafeSnapshot(OfSource(unit.stream, id), unit.snapshots[id])
  }

  /** Moreover it leaves no gap. */
  predicate TidyUnit(unit: Unit) {
    GaplessStream(unit.stream) && SafeUnit(unit)
  }

  /** All units of work but possibly the given one are safe. */
  predicate SafeBut(steps: seq<Act>, unit: Unit) {
    forall i | 0 <= i < |steps| && steps[i].Accept? :: SafeUnit(steps[i].unit) || steps[i].unit == unit
  }

  predicate TidyBut(steps: seq<Act>, unit: Unit) {
    forall i | 0 <= i < |steps| && steps[i].Accept? :: TidyUnit(steps[i].unit) || steps[i].unit == unit
  }

  predicate Safe(steps: seq<Act>) {
    SafeBut(steps, NOTHING)
  }

  predicate Tidy(steps: seq<Act>) {
    TidyBut(steps, NOTHING)
  }

  // ----- The invariant of safe runs -----

  /** The snapshot planned for a group that is still to be stored. */
  ghost predicate Fits(es: seq<UncommittedEvent>, version: int) {
    IsBatch(es) && version >= es[|es| - 1].sequence && SafeSnapshot(es, version)
  }

  ghost predicate HasPending(groups: seq<seq<UncommittedEvent>>, id: Guid, version: int) {
    exists i :: 0 <= i < |groups| && groups[i] != [] && groups[i][0].sourceId == id && Fits(groups[i], version)
  }

  ghost predicate SnapshotOk(race: MongoRace.State, groups: seq<seq<UncommittedEvent>>, id: Guid, version: int) {
    HasPending(groups, id, version) || Harmless(race, id, version)
  }

  ghost predicate SnapshotsOk(s: System) {
    && |s.plans| == |s.race.writers|
    && forall w, id | 0 <= w < |s.plans| && id in s.plans[w] ::
         s.plans[w][id] >= 0 && SnapshotOk(s.race, s.race.writers[w].groups, id, s.plans[w][id])
  }

  ghost predicate SavedOk(s: System) {
    forall id, n | n in SavedOf(s, id) :: n >= 0 && Harmless(s.race, id, n)
  }

  ghost predicate LoadedOk(s: System) {
    forall id, n | n in LoadedOf(s, id) :: Harmless(s.race, id, n)
  }

  ghost predicate Sound(s: System) {
    MongoRace.Invariant(s.race) && SnapshotsOk(s) && SavedOk(s) && LoadedOk(s)
  }

  // ----- Loading -----

  lemma RaceAscends(race: MongoRace.State, id: Guid)
    requires MongoRace.Invariant(race)
    ensures IsAscending(id, StoredEvents(race.db.events, id))
  {
    assert SourceOk(id, StoredEvents(race.db.events, id), GetVersion(race.db, id), WinsOf(race, id));
    SourceAscends(id, StoredEvents(race.db.events, id), GetVersion(race.db, id), WinsOf(race, id));
  }

  /** What is loaded is harmless: through a dead snapshot only dead versions come up, else only stored ones. */
  lemma LoadIsHarmless(race: MongoRace.State, id: Guid, latest: Option<int>, maxVersion: int, n: int)
    requires MongoRace.Invariant(race) && (latest.Some? ==> latest.value >= 0 && Harmless(race, id, latest.value))
    requires LoadedVersion(StoredEvents(race.db.events, id), latest, maxVersion) == Some(n)
    ensures Harmless(race, id, n)
  {
    var stored := StoredEvents(race.db.events, id);
    RaceAscends(race, id);
    var snapshot := Used(latest, maxVersion);
    if snapshot.Some? && !Loadable(race.db, id, snapshot.value) {
      LoadedIsBeyond(stored, latest, maxVersion, n);
    } else {
      LoadedIsNumbered(id, stored, latest, maxVersion, n);
    }
  }

  lemma LoadedIsBeyond(stored: seq<CommittedEvent>, latest: Option<int>, maxVersion: int, n: int)
    requires LoadedVersion(stored, latest, maxVersion) == Some(n) && Used(latest, maxVersion).Some?
    ensures n >= latest.value
  {
  }

  lemma LoadKeeps(s: System, id: Guid, snapshot: Option<int>, maxVersion: int)
    requires Sound(s)
    ensures Sound(After(s, Load(id, snapshot, maxVersion)))
  {
    var version := LoadedVersion(StoredEvents(s.race.db.events, id), snapshot, maxVersion);
    if (snapshot.Some? ==> snapshot.value in SavedOf(s, id)) && version.Some? {
      LoadIsHarmless(s.race, id, snapshot, maxVersion, version.value);
      LoadedMore(s, id, version.value);
    }
  }

  lemma LoadedMore(s: System, id: Guid, n: int)
    requires Sound(s) && Harmless(s.race, id, n)
    ensures Sound(s.(loaded := s.loaded[id := LoadedOf(s, id) + {n}]))
  {
    var s' := s.(loaded := s.loaded[id := LoadedOf(s, id) + {n}]);
    assert forall other :: SavedOf(s', other) == SavedOf(s, other);
    assert forall other, m | m in LoadedOf(s', other) :: m in LoadedOf(s, other) || (other == id && m == n);
  }

  // ----- Beginning -----

  lemma MayBeginIsLoaded(s: System, unit: Unit)
    requires LoadedOk(s) && MayBegin(s, unit)
    ensures IsLoaded(s.race, unit.stream)
  {
    forall i | 0 <= i < |unit.stream|
      ensures var group := OfSource(unit.stream, unit.stream[i].sourceId);
        Harmless(s.race, unit.stream[i].sourceId, group[0].initialVersion)
    {
      var id := unit.stream[i].sourceId;
      assert Loadable(s.race.db, id, 0);
    }
  }

  lemma PlanFits(unit: Unit, id: Guid)
    requires SafeUnit(unit) && id in unit.snapshots
    requires forall i | 0 <= i < |unit.stream| :: IsBatch(OfSource(unit.stream, unit.stream[i].sourceId))
    requires OfSource(unit.stream, id) != []
    requires unit.snapshots[id] >= OfSource(unit.stream, id)[|OfSource(unit.stream, id)| - 1].sequence
    ensures unit.snapshots[id] >= 0 && HasPending(GroupBySource(unit.stream), id, unit.snapshots[id])
  {
    var group := OfSource(unit.stream, id);
    SourceOccurs(unit.stream, id);
    BatchNumbers(group, |group| - 1);
    GroupIsPending(unit.stream, id, group, unit.snapshots[id]);
  }

  lemma SourceOccurs(stream: seq<UncommittedEvent>, id: Guid)
    requires OfSource(stream, id) != []
    ensures exists i :: 0 <= i < |stream| && stream[i].sourceId == id
  {
    SourceMembers(stream, id, OfSource(stream, id)[0]);
  }

  lemma GroupIsPending(stream: seq<UncommittedEvent>, id: Guid, group: seq<UncommittedEvent>, version: int)
    requires group == OfSource(stream, id) && group != [] && Fits(group, version)
    ensures HasPending(GroupBySource(stream), id, version)
  {
    GroupsAreSources(stream);
    GroupIsSource(stream, GroupBySource(stream), id);
    SourceMembers(stream, id, group[0]);
  }

  lemma AcceptKeepsPlans(s: System, unit: Unit)
    requires SnapshotsOk(s) && MayBegin(s, unit) && SafeUnit(unit)
    ensures SnapshotsOk(After(s, Accept(unit)))
  {
    var s' := After(s, Accept(unit));
    SameSourcesSameHarm(s.race, s'.race);
    forall w, id | 0 <= w < |s'.plans| && id in s'.plans[w]
      ensures s'.plans[w][id] >= 0 && SnapshotOk(s'.race, s'.race.writers[w].groups, id, s'.plans[w][id])
    {
      if w == |s.plans| {
        PlanFits(unit, id);
      } else {
        assert SnapshotOk(s.race, s.race.writers[w].groups, id, s.plans[w][id]);
      }
    }
  }

  lemma SameSourcesSameHarm(race: MongoRace.State, race': MongoRace.State)
    requires race'.db == race.db && race'.wins == race.wins
    ensures forall id, n :: Harmless(race', id, n) <==> Harmless(race, id, n)
  {
    assert forall id :: WinsOf(race', id) == WinsOf(race, id);
  }

  lemma AcceptKeeps(s: System, unit: Unit)
    requires Sound(s) && SafeUnit(unit) && MayBegin(s, unit)
    ensures Sound(After(s, Accept(unit)))
    ensures After(s, Accept(unit)).race == MongoRace.Next(s.race, Begin(unit.stream))
  {
    var s' := After(s, Accept(unit));
    MayBeginIsLoaded(s, unit);
    AcceptIsBegin(s, unit);
    NextKeeps(s.race, Begin(unit.stream));
    AcceptKeepsPlans(s, unit);
    SameSourcesSameHarm(s.race, s'.race);
    SameHarmKeeps(s, s');
  }

  lemma AcceptIsBegin(s: System, unit: Unit)
    requires MayBegin(s, unit) && IsLoaded(s.race, unit.stream)
    ensures var s' := After(s, Accept(unit));
      && s'.race == MongoRace.Next(s.race, Begin(unit.stream)) && s'.saved == s.saved && s'.loaded == s.loaded
      && s'.race.db == s.race.db && s'.race.wins == s.race.wins
  {
  }

  lemma SameHarmKeeps(s: System, s': System)
    requires SavedOk(s) && LoadedOk(s) && s'.saved == s.saved && s'.loaded == s.loaded
    requires forall id, n :: Harmless(s'.race, id, n) <==> Harmless(s.race, id, n)
    ensures SavedOk(s') && LoadedOk(s')
  {
    assert forall id :: SavedOf(s', id) == SavedOf(s, id) && LoadedOf(s', id) == LoadedOf(s, id);
  }

  // ----- Storing -----

  /** A step of the race on its own: loads, snapshots and plans stay as good as they were. */
  lemma RaceStepKeeps(s: System, step: MongoRace.Step)
    requires Sound(s) && !step.Begin?
    ensures Sound(s.(race := MongoRace.Next(s.race, step)))
  {
    var race' := MongoRace.Next(s.race, step);
    NextKeeps(s.race, step);
    forall id, n | Harmless(s.race, id, n)
      ensures Harmless(race', id, n)
    {
      HarmlessStays(s.race, step, id, n);
    }
    SameWriters(s.race, step);
    forall w, id | 0 <= w < |s.plans| && id in s.plans[w]
      ensures SnapshotOk(race', race'.writers[w].groups, id, s.plans[w][id])
    {
      SnapshotStays(s, step, w, id);
    }
    RaceMoves(s, race');
  }

  lemma SameWriters(race: MongoRace.State, step: MongoRace.Step)
    requires !step.Begin?
    ensures |MongoRace.Next(race, step).writers| == |race.writers|
  {
  }

  lemma RaceMoves(s: System, race': MongoRace.State)
    requires Sound(s) && MongoRace.Invariant(race') && |race'.writers| == |s.race.writers|
    requires forall id, n | Harmless(s.race, id, n) :: Harmless(race', id, n)
    requires forall w, id | 0 <= w < |s.plans| && id in s.plans[w] ::
      SnapshotOk(race', race'.writers[w].groups, id, s.plans[w][id])
    ensures Sound(s.(race := race'))
  {
    assert forall id :: LoadedOf(s.(race := race'), id) == LoadedOf(s, id);
    assert forall id :: SavedOf(s.(race := race'), id) == SavedOf(s, id);
  }

  lemma SnapshotStays(s: System, step: MongoRace.Step, w: nat, id: Guid)
    requires MongoRace.Invariant(s.race) && SnapshotsOk(s) && !step.Begin? && w < |s.plans| && id in s.plans[w]
    ensures w < |MongoRace.Next(s.race, step).writers|
    ensures SnapshotOk(MongoRace.Next(s.race, step), MongoRace.Next(s.race, step).writers[w].groups, id, s.plans[w][id])
  {
    assert SnapshotOk(s.race, s.race.writers[w].groups, id, s.plans[w][id]);
    SameWriters(s.race, step);
    if HasPending(s.race.writers[w].groups, id, s.plans[w][id]) {
      PendingStays(s.race, step, w, id, s.plans[w][id]);
    } else {
      HarmlessStays(s.race, step, id, s.plans[w][id]);
    }
  }

  /** A group stays to be stored, or has just been, and then its snapshot is harmless. */
  lemma PendingStays(race: MongoRace.State, step: MongoRace.Step, w: nat, id: Guid, version: int)
    requires MongoRace.Invariant(race) && !step.Begin? && w < |race.writers|
    requires HasPending(race.writers[w].groups, id, version)
    ensures w < |MongoRace.Next(race, step).writers|
    ensures SnapshotOk(MongoRace.Next(race, step), MongoRace.Next(race, step).writers[w].groups, id, version)
  {
    var groups: seq<seq<UncommittedEvent>> := race.writers[w].groups;
    var groups': seq<seq<UncommittedEvent>> := MongoRace.Next(race, step).writers[w].groups;
    if groups' != groups {
      GroupsMoveOn(race, step, w);
      var i :| 0 <= i < |groups| && groups[i] != [] && groups[i][0].sourceId == id && Fits(groups[i], version);
      if i == 0 {
        StoredGroupIsHarmless(race, w, version);
      } else {
        assert groups'[i - 1] == groups[i];
      }
    }
  }

  lemma GroupsMoveOn(race: MongoRace.State, step: MongoRace.Step, w: nat)
    requires !step.Begin? && w < |race.writers|
    ensures w < |MongoRace.Next(race, step).writers|
    ensures var groups, groups' := race.writers[w].groups, MongoRace.Next(race, step).writers[w].groups;
      groups' != groups ==>
        && step == Progress(w) && groups != [] && groups' == groups[1..]
        && race.writers[w].phase.Inserting? && race.writers[w].phase.saved + 1 == |groups[0]|
  {
  }

  /** The last event of a group is inserted: everything recorded for its source is stored. */
  lemma StoredGroupIsHarmless(race: MongoRace.State, w: nat, version: int)
    requires MongoRace.Invariant(race) && w < |race.writers| && race.writers[w].groups != []
    requires race.writers[w].phase.Inserting? && race.writers[w].phase.saved + 1 == |race.writers[w].groups[0]|
    requires Fits(race.writers[w].groups[0], version)
    ensures Harmless(MongoRace.Next(race, Progress(w)), race.writers[w].groups[0][0].sourceId, version)
  {
    var es, race' := race.writers[w].groups[0], MongoRace.Next(race, Progress(w));
    var before := GroupIsStored(race, w);
    var stored := StoredEvents(race'.db.events, es[0].sourceId);
    if IsGapless(es, es[0].initialVersion) {
      WholeIsNumbered(stored, before, es);
    } else {
      GappedNumbers(es);
      GapInLast(before, es);
    }
  }

  lemma {:induction false} GroupIsStored(race: MongoRace.State, w: nat) returns (before: seq<UncommittedEvent>)
    requires MongoRace.Invariant(race) && w < |race.writers| && race.writers[w].groups != []
    requires race.writers[w].phase.Inserting? && race.writers[w].phase.saved + 1 == |race.writers[w].groups[0]|
    ensures var es, race' := race.writers[w].groups[0], MongoRace.Next(race, Progress(w));
      && es != [] && Owned(WinsOf(race', es[0].sourceId)) == before + es
      && |before| == es[0].initialVersion && IsGapless(before, 0)
      && |StoredEvents(race'.db.events, es[0].sourceId)| == |before| + |es|
      && StoredEvents(race'.db.events, es[0].sourceId) <= AllCommitted(before + es)
  {
    assert WriterOk(race, w);
    var es, phase := race.writers[w].groups[0], race.writers[w].phase;
    var id, wins := es[0].sourceId, WinsOf(race, es[0].sourceId);
    before := Owned(wins[..|wins| - 1]);
    var inserted := DomainEvent(phase.sequentialId, Committed(es[phase.saved]));
    assert SourceOk(id, StoredEvents(race.db.events, id), GetVersion(race.db, id), wins);
    LastWin(id, StoredEvents(race.db.events, id), GetVersion(race.db, id), wins);
    InsertSource(id, race.db.events, inserted, GetVersion(race.db, id), wins, phase.saved);
    StoredAfterInsert(race.db.events, inserted, id);
  }

  lemma WholeIsNumbered(stored: seq<CommittedEvent>, before: seq<UncommittedEvent>, es: seq<UncommittedEvent>)
    requires stored <= AllCommitted(before + es) && |stored| == |before| + |es|
    requires IsGapless(before, 0) && IsGapless(es, |before|)
    ensures NumberedUpTo(stored, |before| + |es|)
  {
    assert forall i | 0 <= i < |before| :: stored[i] == Committed(before[i]);
    assert forall i | 0 <= i < |es| :: stored[|before| + i] == Committed(es[i]);
  }

  lemma GapInLast(before: seq<UncommittedEvent>, es: seq<UncommittedEvent>)
    requires !IsGapless(es, |before|)
    ensures !IsGapless(before + es, 0)
  {
    var i :| 0 <= i < |es| && es[i].sequence != |before| + 1 + i;
    assert (before + es)[|before| + i] == es[i];
  }

  // ----- Saving snapshots -----

  lemma SaveKeeps(s: System, w: nat, id: Guid)
    requires Sound(s)
    ensures Sound(After(s, SaveSnapshot(w, id)))
  {
    if w < |s.plans| && s.race.writers[w] == Writer([], Reading) && id in s.plans[w] {
      assert SnapshotOk(s.race, s.race.writers[w].groups, id, s.plans[w][id]);
      SavedMore(s, id, s.plans[w][id]);
    }
  }

  lemma SavedMore(s: System, id: Guid, version: int)
    requires Sound(s) && version >= 0 && Harmless(s.race, id, version)
    ensures Sound(SaveStep(s, id, version))
  {
    var s' := SaveStep(s, id, version);
    assert forall other :: LoadedOf(s', other) == LoadedOf(s, other);
    assert forall other, n | n in SavedOf(s', other) :: n in SavedOf(s, other) || (other == id && n == version);
  }

  // ----- Every safe run -----

  lemma SafeKeeps(s: System, step: Act)
    requires Sound(s) && (step.Accept? ==> SafeUnit(step.unit))
    ensures Sound(After(s, step))
  {
    match step
    case Load(id, snapshot, maxVersion) => LoadKeeps(s, id, snapshot, maxVersion);
    case Accept(unit) => if MayBegin(s, unit) { AcceptKeeps(s, unit); }
    case Operate(w) => RaceStepKeeps(s, Progress(w));
    case SaveSnapshot(w, id) => SaveKeeps(s, w, id);
    case Die(w) => RaceStepKeeps(s, Crash(w));
  }

  lemma SafeFront(steps: seq<Act>)
    requires steps != [] && Safe(steps)
    ensures Safe(steps[..|steps| - 1])
    ensures steps[|steps| - 1].Accept? ==> SafeUnit(steps[|steps| - 1].unit)
    ensures Tidy(steps) ==> Tidy(steps[..|steps| - 1])
    ensures Tidy(steps) && steps[|steps| - 1].Accept? ==> GaplessStream(steps[|steps| - 1].unit.stream)
  {
  }

  /** A run of units of work with safe snapshots is, for the store, a run of writers that all hold harmless versions:
      whatever holds of all runs of those holds of it. */
  lemma {:induction false} SafeRunIsRace(steps: seq<Act>) returns (race: seq<MongoRace.Step>)
    requires Safe(steps)
    ensures Sound(AfterAll(NewSystem(), steps))
    ensures AfterAll(NewSystem(), steps).race == MongoRace.Run(MongoRace.Init(), race)
    ensures Tidy(steps) ==> GaplessBut(race, [])
  {
    if steps == [] {
      race := [];
      RunKeeps([]);
    } else {
      var front, step := steps[..|steps| - 1], steps[|steps| - 1];
      SafeFront(steps);
      race := SafeRunIsRace(front);
      race := SafeMore(front, step, race);
    }
  }

  lemma {:induction false} SafeMore(front: seq<Act>, step: Act, race: seq<MongoRace.Step>)
    returns (longer: seq<MongoRace.Step>)
    requires Sound(AfterAll(NewSystem(), front))
    requires AfterAll(NewSystem(), front).race == MongoRace.Run(MongoRace.Init(), race)
    requires step.Accept? ==> SafeUnit(step.unit)
    ensures Sound(After(AfterAll(NewSystem(), front), step))
    ensures After(AfterAll(NewSystem(), front), step).race == MongoRace.Run(MongoRace.Init(), longer)
    ensures GaplessBut(race, []) && (step.Accept? ==> GaplessStream(step.unit.stream)) ==> GaplessBut(longer, [])
  {
    SafeKeeps(AfterAll(NewSystem(), front), step);
    longer := RaceMore(front, step, race);
  }

  lemma {:induction false} RaceMore(front: seq<Act>, step: Act, race: seq<MongoRace.Step>)
    returns (longer: seq<MongoRace.Step>)
    requires Sound(AfterAll(NewSystem(), front))
    requires AfterAll(NewSystem(), front).race == MongoRace.Run(MongoRace.Init(), race)
    requires step.Accept? ==> SafeUnit(step.unit)
    ensures After(AfterAll(NewSystem(), front), step).race == MongoRace.Run(MongoRace.Init(), longer)
    ensures GaplessBut(race, []) && (step.Accept? ==> GaplessStream(step.unit.stream)) ==> GaplessBut(longer, [])
  {
    longer := race;
    var taken := RaceStep(AfterAll(NewSystem(), front), step);
    if taken.Some? {
      longer := race + [taken.value];
      MongoRace.RunMore(MongoRace.Init(), race, taken.value);
    }
  }

  /** What an act comes to for the store: one step of the race, or none. */
  lemma {:induction false} RaceStep(s: System, step: Act) returns (taken: Option<MongoRace.Step>)
    requires Sound(s) && (step.Accept? ==> SafeUnit(step.unit))
    ensures After(s, step).race == if taken.Some? then MongoRace.Next(s.race, taken.value) else s.race
    ensures taken.Some? && taken.value.Begin? ==> step.Accept? && taken.value.stream == step.unit.stream
  {
    match step
    case Load(_, _, _) => taken := None;
    case SaveSnapshot(_, _) => taken := None;
    case Accept(unit) =>
      taken := None;
      if MayBegin(s, unit) {
        AcceptKeeps(s, unit);
        taken := Some(Begin(unit.stream));
      }
    case Operate(w) => taken := Some(Progress(w));
    case Die(w) => taken := Some(Crash(w));
  }
}
