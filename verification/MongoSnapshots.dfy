/** What snapshots may be saved: the store keeps its promises in all runs exactly as long as they are safe. */
module MongoSnapshots {
  import opened Common
  import opened EventStreams
  import opened MongoStore
  import opened MongoRace
  import opened MongoUninterrupted
  import opened MongoSealed
  import opened MongoUnits

  // ----- Safe runs keep every promise of the store -----

  /** Numbers go up, so none is stored twice, and there are never more than the recorded version says. */
  lemma SafeIsAscending(steps: seq<Act>, id: Guid)
    requires Safe(steps)
    ensures var db := AfterAll(NewSystem(), steps).race.db;
      && IsAscending(id, StoredEvents(db.events, id))
      && (match GetVersion(db, id) case None => CountOf(db, id) == 0 case Some(version) => CountOf(db, id) <= version)
  {
    var race := SafeRunIsRace(steps);
    StoredAscends(race, id);
  }

  /** Numbered 1, 2, ... exactly when the stored part of the last winner's batch has no gap; earlier winners have
      none. */
  lemma SafeIsNumberedExactlyWhenGapless(steps: seq<Act>, id: Guid, race: State)
    requires Safe(steps) && race == AfterAll(NewSystem(), steps).race
    ensures OnlyLastMayGap(StoredEvents(race.db.events, id), WinsOf(race, id))
  {
    SafeIsReachable(steps);
    ReachableIsNumbered(race, id);
  }

  lemma SafeIsReachable(steps: seq<Act>)
    requires Safe(steps)
    ensures Reachable(AfterAll(NewSystem(), steps).race)
  {
    var race := SafeRunIsRace(steps);
  }

  lemma ReachableIsNumbered(race: State, id: Guid)
    requires Reachable(race)
    ensures OnlyLastMayGap(StoredEvents(race.db.events, id), WinsOf(race, id))
  {
    var steps: seq<Step> :| race == Run(Init(), steps);
    StoredIsNumberedExactlyWhenGapless(steps, id);
  }

  lemma TidyIsNumbered(steps: seq<Act>, id: Guid)
    requires Tidy(steps)
    ensures Numbered(StoredEvents(AfterAll(NewSystem(), steps).race.db.events, id))
  {
    TidyIsSafe(steps);
    var race := SafeRunIsRace(steps);
    GaplessWorkIsNumbered(race, id);
  }

  lemma TidyIsSafe(steps: seq<Act>)
    requires Tidy(steps)
    ensures Safe(steps)
  {
  }

  ghost predicate OneHolder(race: State, id: Guid) {
    forall w: nat, x: nat | w < |race.writers| && x < |race.writers| ::
      Holds(race.writers[w], id) && Holds(race.writers[x], id) ==> w == x
  }

  lemma SafeHasOneHolder(steps: seq<Act>, id: Guid)
    requires Safe(steps)
    ensures OneHolder(AfterAll(NewSystem(), steps).race, id)
  {
    var race := SafeRunIsRace(steps);
    forall w: nat, x: nat
      ensures var s := AfterAll(NewSystem(), steps).race;
        w < |s.writers| && x < |s.writers| && Holds(s.writers[w], id) && Holds(s.writers[x], id) ==> w == x
    {
      OneOwnerPerSource(race, id, w, x);
    }
  }

  /** The stored history is the winners' batches in winning order, only the last possibly cut short. */
  lemma SafeIsWinnersInOrder(steps: seq<Act>, id: Guid)
    requires Safe(steps)
    ensures var race := AfterAll(NewSystem(), steps).race;
      var stored, wins := StoredEvents(race.db.events, id), WinsOf(race, id);
      && stored <= AllCommitted(Owned(wins))
      && (wins != [] ==> AllCommitted(Owned(wins[..|wins| - 1])) <= stored)
  {
    var race := SafeRunIsRace(steps);
    StoredIsWinnersInOrder(race, id);
  }

  /** From one state of the race to the next: a writer's decision is an atomic append, or its refusal; no other step
      touches a log. */
  ghost predicate RefinesLog(race: State, race': State, step: Step) {
    if Decides(race, step) then
      && |race'.writers| == |race.writers|
      && race.writers[step.writer].groups != [] && race.writers[step.writer].groups[0] != []
      && IsAtomicAppend(race, race', step.writer, race.writers[step.writer].groups[0])
    else forall id :: WinsOf(race', id) == WinsOf(race, id)
  }

  lemma ReachableRefinesLog(race: State, step: Step)
    requires Reachable(race)
    ensures RefinesLog(race, Next(race, step), step)
  {
    var steps: seq<Step> :| race == Run(Init(), steps);
    StepsRefineAtomicLog(steps, step);
  }

  /** A writer's insert or update takes effect exactly when the atomic log of its source takes its batch at that moment;
      no other act touches a log. */
  lemma SafeRefinesAtomicLog(steps: seq<Act>, step: Act)
    requires Safe(steps)
    ensures var race, race' := AfterAll(NewSystem(), steps).race, After(AfterAll(NewSystem(), steps), step).race;
      && (step.Operate? ==> RefinesLog(race, race', Progress(step.writer)))
      && (!step.Operate? ==> forall id :: WinsOf(race', id) == WinsOf(race, id))
  {
    var race := SafeRunIsRace(steps);
    assert Reachable(AfterAll(NewSystem(), steps).race);
    ActRefinesLog(AfterAll(NewSystem(), steps), step);
  }

  lemma ActRefinesLog(s: System, step: Act)
    requires Reachable(s.race)
    ensures step.Operate? ==> RefinesLog(s.race, After(s, step).race, Progress(step.writer))
    ensures !step.Operate? ==> forall id :: WinsOf(After(s, step).race, id) == WinsOf(s.race, id)
  {
    if step.Operate? {
      ReachableRefinesLog(s.race, Progress(step.writer));
    } else {
      OtherActsKeepWins(s, step);
    }
  }

  lemma OtherActsKeepWins(s: System, step: Act)
    requires !step.Operate?
    ensures After(s, step).race.wins == s.race.wins
  {
  }

  /** A source that is sealed, by a gap or by a crash, gets no new winner. */
  lemma {:induction false} SafeSealedIsForever(s: System, more: seq<Act>, id: Guid)
    requires Sound(s) && Safe(more) && Sealed(s.race, id)
    ensures Sound(AfterAll(s, more)) && Sealed(AfterAll(s, more).race, id)
    ensures WinsOf(AfterAll(s, more).race, id) == WinsOf(s.race, id)
  {
    if more != [] {
      var front, step := more[..|more| - 1], more[|more| - 1];
      SafeFront(more);
      SafeSealedIsForever(s, front, id);
      SafeKeeps(AfterAll(s, front), step);
      SealedAct(AfterAll(s, front), step, id);
    }
  }

  lemma SealedAct(s: System, step: Act, id: Guid)
    requires Sound(s) && (step.Accept? ==> SafeUnit(step.unit)) && Sealed(s.race, id)
    ensures Sealed(After(s, step).race, id) && WinsOf(After(s, step).race, id) == WinsOf(s.race, id)
  {
    var taken := RaceStep(s, step);
    if taken.Some? {
      SealedStays(s.race, taken.value, id);
    }
  }

  // ----- Building runs -----

  ghost predicate OnlyFrom(steps: seq<Act>, units: set<Unit>) {
    forall i | 0 <= i < |steps| && steps[i].Accept? :: steps[i].unit in units
  }

  /** A run that gets to the state, with these units of work only. */
  ghost predicate Reaches(steps: seq<Act>, s: System, units: set<Unit>) {
    s == AfterAll(NewSystem(), steps) && OnlyFrom(steps, units)
  }

  lemma {:induction false} Do(steps: seq<Act>, s: System, units: set<Unit>, step: Act)
    returns (steps': seq<Act>, s': System)
    requires Reaches(steps, s, units) && (step.Accept? ==> step.unit in units)
    ensures Reaches(steps', s', units) && s' == After(s, step) && steps' == steps + [step]
  {
    steps', s' := steps + [step], After(s, step);
    AfterMore(NewSystem(), steps, step);
  }

  function Operates(w: nat, n: nat): (steps: seq<Act>)
    ensures forall step | step in steps :: step == Operate(w)
  {
    if n == 0 then [] else Operates(w, n - 1) + [Operate(w)]
  }

  lemma OperateOn(s: System, w: nat, race: State)
    ensures After(s.(race := race), Operate(w)) == s.(race := Operation(w)(race))
  {
    assert Operation(w)(race) == Next(race, Progress(w));
  }

  lemma OperateMore(s: System, steps: seq<Act>, w: nat, race: State)
    requires AfterAll(s, steps) == s.(race := race)
    ensures AfterAll(s, steps + [Operate(w)]) == s.(race := Operation(w)(race))
  {
    calc {
      AfterAll(s, steps + [Operate(w)]);
      { AfterMore(s, steps, Operate(w)); }
      After(AfterAll(s, steps), Operate(w));
      { OperateOn(s, w, race); }
      s.(race := Operation(w)(race));
    }
  }

  lemma AloneMore(race: State, w: nat, n: nat)
    ensures Alone(race, w, 0) == race
    ensures Alone(race, w, n + 1) == Operation(w)(Alone(race, w, n))
  {
  }

  lemma {:induction false} OperatesMore(s: System, w: nat, n: nat, race: State)
    requires n > 0 && AfterAll(s, Operates(w, n - 1)) == s.(race := race)
    ensures AfterAll(s, Operates(w, n)) == s.(race := Operation(w)(race))
  {
    assert Operates(w, n) == Operates(w, n - 1) + [Operate(w)];
    OperateMore(s, Operates(w, n - 1), w, race);
  }

  lemma {:induction false} OperatesAlone(s: System, w: nat, n: nat)
    ensures AfterAll(s, Operates(w, n)) == s.(race := Alone(s.race, w, n))
  {
    if n == 0 {
      AloneMore(s.race, w, 0);
    } else {
      OperatesAlone(s, w, n - 1);
      OperatesMore(s, w, n, Alone(s.race, w, n - 1));
      AloneMore(s.race, w, n - 1);
    }
  }

  lemma {:induction false} DoAlone(steps: seq<Act>, s: System, units: set<Unit>, w: nat, n: nat)
    returns (steps': seq<Act>, s': System)
    requires Reaches(steps, s, units)
    ensures Reaches(steps', s', units) && s' == s.(race := Alone(s.race, w, n)) && steps <= steps'
  {
    steps', s' := steps + Operates(w, n), s.(race := Alone(s.race, w, n));
    OperatesAlone(s, w, n);
    AfterConcat(NewSystem(), steps, Operates(w, n));
    NoMoreUnits(steps, Operates(w, n), units);
  }

  lemma NoMoreUnits(steps: seq<Act>, more: seq<Act>, units: set<Unit>)
    requires OnlyFrom(steps, units) && forall step | step in more :: !step.Accept?
    ensures OnlyFrom(steps + more, units)
  {
    assert forall i | |steps| <= i < |steps + more| :: (steps + more)[i] in more;
  }

  /** The other writers do not move, and a good state stays good. */
  lemma {:induction false} AloneLeavesOthers(race: State, w: nat, n: nat)
    ensures |Alone(race, w, n).writers| == |race.writers|
    ensures forall x: nat | x < |race.writers| && x != w :: Alone(race, w, n).writers[x] == race.writers[x]
    ensures Reachable(race) ==> Reachable(Alone(race, w, n))
  {
    if n > 0 {
      AloneLeavesOthers(race, w, n - 1);
      OperationLeavesOthers(Alone(race, w, n - 1), w);
    }
  }

  lemma OperationLeavesOthers(race: State, w: nat)
    ensures var race' := Next(race, Progress(w));
      && |race'.writers| == |race.writers|
      && (forall x: nat | x < |race.writers| && x != w :: race'.writers[x] == race.writers[x])
      && (Reachable(race) ==> Reachable(race'))
  {
    if Reachable(race) {
      ReachableNext(race, Progress(w));
    }
  }

  /** Nobody has anything left to store. */
  ghost predicate Quiet(s: System) {
    && |s.plans| == |s.race.writers|
    && forall x: nat | x < |s.race.writers| :: s.race.writers[x].groups == []
  }

  // ----- A unit of work that is left alone -----

  /** It holds versions that are stored and were loaded, and none of its sources is refused. */
  ghost predicate MayStore(s: System, unit: Unit) {
    MayBegin(s, unit) && IsLoaded(s.race, unit.stream) && Store(s.race.db, unit.stream).outcome == Stored
  }

  lemma OneBatchBegins(s: System, unit: Unit, es: seq<UncommittedEvent>)
    requires unit.stream == es && IsBatch(es)
    requires es[0].initialVersion == 0 || es[0].initialVersion in LoadedOf(s, es[0].sourceId)
    requires forall id | id in unit.snapshots :: id == es[0].sourceId && unit.snapshots[id] >= es[|es| - 1].sequence
    ensures MayBegin(s, unit) && GroupBySource(es) == [es]
  {
    OneSourceThroughout(es);
    forall i | 0 <= i < |es|
      ensures OfSource(es, es[i].sourceId) == es
    {
      assert es[i].sourceId == es[0].sourceId;
    }
  }

  lemma OneSourceThroughout(es: seq<UncommittedEvent>)
    requires IsBatch(es)
    ensures OfSource(es, es[0].sourceId) == es && GroupBySource(es) == [es]
  {
    OfSingleSource(es, es[0].sourceId);
    SingleSourceIsOneGroup(EMPTY_DB, es);
  }

  lemma {:induction false} Enters(steps: seq<Act>, s: System, units: set<Unit>, unit: Unit, es: seq<UncommittedEvent>)
    returns (steps': seq<Act>, s': System)
    requires Reaches(steps, s, units) && unit in units && |s.plans| == |s.race.writers|
    requires unit.stream == es && IsBatch(es)
    requires es[0].initialVersion == 0 || es[0].initialVersion in LoadedOf(s, es[0].sourceId)
    requires forall id | id in unit.snapshots :: id == es[0].sourceId && unit.snapshots[id] >= es[|es| - 1].sequence
    ensures Reaches(steps', s', units) && steps <= steps'
    ensures s' == s.(race := s.race.(writers := s.race.writers + [Writer([es], Reading)]),
                     plans := s.plans + [unit.snapshots])
    ensures Reachable(s.race) && Loadable(s.race.db, es[0].sourceId, es[0].initialVersion) ==>
      Reachable(s'.race)
  {
    OneBatchBegins(s, unit, es);
    steps', s' := Do(steps, s, units, Accept(unit));
    if Reachable(s.race) && Loadable(s.race.db, es[0].sourceId, es[0].initialVersion) {
      OneBatchMayBegin(s.race, es);
      ReachableNext(s.race, Begin(es));
    }
  }

  lemma {:induction false} EntersLoaded(steps: seq<Act>, s: System, units: set<Unit>, unit: Unit)
    returns (steps': seq<Act>, s': System)
    requires Reaches(steps, s, units) && unit in units && Reachable(s.race)
    requires MayBegin(s, unit) && IsLoaded(s.race, unit.stream)
    ensures Reaches(steps', s', units) && Reachable(s'.race)
    ensures s' == s.(race := WithWriter(s.race, unit.stream), plans := s.plans + [unit.snapshots])
  {
    steps', s' := Do(steps, s, units, Accept(unit));
    ReachableNext(s.race, Begin(unit.stream));
  }

  /** It stores its stream and is ready for its snapshots. */
  lemma {:induction false} Stores(steps: seq<Act>, s: System, units: set<Unit>, unit: Unit)
    returns (steps': seq<Act>, s': System)
    requires Reaches(steps, s, units) && unit in units && Quiet(s) && Reachable(s.race) && MayStore(s, unit)
    ensures Reaches(steps', s', units) && Quiet(s') && Reachable(s'.race)
    ensures s'.race.db == Store(s.race.db, unit.stream).db && s'.saved == s.saved && s'.loaded == s.loaded
    ensures s'.plans == s.plans + [unit.snapshots] && s'.race.writers[|s.plans|] == Writer([], Reading)
  {
    var w, groups := |s.race.writers|, GroupBySource(unit.stream);
    steps', s' := EntersLoaded(steps, s, units, unit);
    var entered := s'.race;
    var n := GroupsStoredAlone(entered, w, s.race.db, groups);
    AloneLeavesOthers(entered, w, n);
    steps', s' := DoAlone(steps', s', units, w, n);
  }

  /** It gets its version recorded and goes no further for now. */
  lemma {:induction false} Wins(steps: seq<Act>, s: System, units: set<Unit>, unit: Unit, es: seq<UncommittedEvent>)
    returns (steps': seq<Act>, s': System)
    requires Reaches(steps, s, units) && unit in units && |s.plans| == |s.race.writers|
    requires unit.stream == es && unit.snapshots == map[] && IsBatch(es) && Accepts(s.race.db, es)
    requires es[0].initialVersion == 0 || es[0].initialVersion in LoadedOf(s, es[0].sourceId)
    ensures Reaches(steps', s', units) && steps <= steps'
    ensures s'.saved == s.saved && s'.loaded == s.loaded && s'.plans == s.plans + [map[]]
    ensures s'.race.writers == s.race.writers + [Writer([es], Saving(0))]
    ensures s'.race.db == s.race.db.(versions := s.race.db.versions[es[0].sourceId := NewVersion(es)])
    ensures WinsOf(s'.race, es[0].sourceId) == WinsOf(s.race, es[0].sourceId) + [Win(|s.race.writers|, es)]
    ensures Reachable(s.race) && Loadable(s.race.db, es[0].sourceId, es[0].initialVersion) ==>
      Reachable(s'.race)
  {
    var w := |s.race.writers|;
    steps', s' := Enters(steps, s, units, unit, es);
    var entered := s'.race;
    steps', s' := Do(steps', s', units, Operate(w));
    steps', s' := Do(steps', s', units, Operate(w));
    WinsInTwo(entered, w, es);
    assert s'.race.writers[..w] == s.race.writers;
  }

  lemma WinsInTwo(race: State, w: nat, es: seq<UncommittedEvent>)
    requires w + 1 == |race.writers| && race.writers[w] == Writer([es], Reading) && es != [] && Accepts(race.db, es)
    ensures var race' := Next(Next(race, Progress(w)), Progress(w));
      && race'.writers == race.writers[..w] + [Writer([es], Saving(0))]
      && race'.db == race.db.(versions := race.db.versions[es[0].sourceId := NewVersion(es)])
      && WinsOf(race', es[0].sourceId) == WinsOf(race, es[0].sourceId) + [Win(w, es)]
      && (Reachable(race) ==> Reachable(race'))
  {
    var read := Next(race, Progress(w));
    assert read.writers == race.writers[..w] + [Writer([es], Deciding(GetVersion(race.db, es[0].sourceId)))];
    OperationLeavesOthers(race, w);
    OperationLeavesOthers(read, w);
  }

  // ----- Loading in a run -----

  /** Every stored version without a gap before it can be loaded, past any snapshot. */
  lemma {:induction false} LoadsAt(steps: seq<Act>, s: System, units: set<Unit>, id: Guid, n: nat)
    returns (steps': seq<Act>, s': System)
    requires Reaches(steps, s, units) && Reachable(s.race) && n >= 1 && Loadable(s.race.db, id, n)
    ensures Reaches(steps', s', units) && s' == s.(loaded := s.loaded[id := LoadedOf(s, id) + {n}])
    ensures steps <= steps'
  {
    ReachableKeeps(s.race);
    RaceAscends(s.race, id);
    LoadsNumbered(id, StoredEvents(s.race.db.events, id), None, n);
    steps', s' := Do(steps, s, units, Load(id, None, n));
  }

  // ----- A source that is not sealed -----

  /** Only the race has moved. */
  ghost predicate SameLoads(s: System, s': System) {
    s'.plans == s.plans && s'.saved == s.saved && s'.loaded == s.loaded && |s'.race.writers| == |s.race.writers|
  }

  lemma {:induction false} HolderSavesAll(steps: seq<Act>, s: System, units: set<Unit>, w: nat, id: Guid)
    returns (steps': seq<Act>, s': System)
    requires Reaches(steps, s, units) && HoldsIn(s.race, w, id)
    ensures Reaches(steps', s', units) && steps <= steps' && SameLoads(s, s') && Reachable(s'.race)
    ensures WinsOf(s'.race, id) == WinsOf(s.race, id) && Missing(s'.race, id) == 0
    decreases ToDo(s.race, w, id)
  {
    var race := HolderStep(s.race, w, id);
    MongoRace.RunOne(s.race, Progress(w));
    SameWriters(s.race, Progress(w));
    steps', s' := Do(steps, s, units, Operate(w));
    if Missing(race, id) > 0 {
      steps', s' := HolderSavesAll(steps', s', units, w, id);
    }
  }

  lemma {:induction false} NextUnitWins(steps: seq<Act>, s: System, units: set<Unit>, id: Guid)
    returns (steps': seq<Act>)
    requires Reaches(steps, s, units) && Reachable(s.race) && !Gapped(s.race, id) && Missing(s.race, id) == 0
    requires |s.plans| == |s.race.writers|
    requires Unit(NextEvents(s.race, id), map[]) in units
    ensures steps <= steps' && OnlyFrom(steps', units)
    ensures WinsOf(AfterAll(NewSystem(), steps').race, id) != WinsOf(s.race, id)
  {
    var es, n, s' := NextEvents(s.race, id), CountOf(s.race.db, id), s;
    steps' := steps;
    CaughtUpAccepts(s.race, id);
    if n > 0 {
      steps', s' := LoadsAt(steps, s, units, id, n);
    }
    steps', s' := Wins(steps', s', units, Unit(es, map[]), es);
  }

  lemma CaughtUpAccepts(race: State, id: Guid)
    requires Reachable(race) && !Gapped(race, id) && Missing(race, id) == 0
    ensures Loadable(race.db, id, CountOf(race.db, id)) && Accepts(race.db, NextEvents(race, id))
  {
    ReachableKeeps(race);
    var stored, owned := StoredEvents(race.db.events, id), Owned(WinsOf(race, id));
    assert SourceOk(id, stored, GetVersion(race.db, id), WinsOf(race, id));
    assert stored == AllCommitted(owned);
  }

  /** The units of work of a run. */
  function Begun(steps: seq<Act>): set<Unit> {
    set i | 0 <= i < |steps| && steps[i].Accept? :: steps[i].unit
  }

  lemma OneEventIsSafe(race: State, id: Guid)
    ensures SafeUnit(Unit(NextEvents(race, id), map[]))
  {
  }

  /** What a safe run offers to continue from. */
  lemma SafeRunGoesOn(steps: seq<Act>, id: Guid)
    requires Safe(steps)
    ensures var s := AfterAll(NewSystem(), steps);
      && Reachable(s.race) && |s.plans| == |s.race.writers|
      && Reaches(steps, s, Begun(steps))
  {
    var race := SafeRunIsRace(steps);
  }

  lemma {:induction false} UnsealedCatchesUp(steps: seq<Act>, s: System, units: set<Unit>, id: Guid)
    returns (longer: seq<Act>, s': System)
    requires Reaches(steps, s, units) && Reachable(s.race) && !Sealed(s.race, id)
    ensures Reaches(longer, s', units) && steps <= longer && SameLoads(s, s') && Reachable(s'.race)
    ensures WinsOf(s'.race, id) == WinsOf(s.race, id) && Missing(s'.race, id) == 0
  {
    longer, s' := steps, s;
    if Missing(s.race, id) != 0 {
      MissingIsHeld(s.race, id);
      var w: nat :| w < |s.race.writers| && Holds(s.race.writers[w], id);
      longer, s' := HolderSavesAll(steps, s, units, w, id);
    }
  }

  lemma {:induction false} UnsealedTakesUnit(steps: seq<Act>, id: Guid) returns (more: seq<Act>)
    requires Safe(steps) && !Sealed(AfterAll(NewSystem(), steps).race, id)
    ensures Safe(more)
    ensures WinsOf(AfterAll(AfterAll(NewSystem(), steps), more).race, id) !=
            WinsOf(AfterAll(NewSystem(), steps).race, id)
  {
    var s := AfterAll(NewSystem(), steps);
    SafeRunGoesOn(steps, id);
    var longer, s' := UnsealedCatchesUp(steps, s, Begun(steps), id);
    var units := Begun(steps) + {Unit(NextEvents(s'.race, id), map[])};
    longer := NextUnitWins(longer, s', units, id);
    OneEventIsSafe(s'.race, id);
    more := Tail(steps, longer, units);
  }

  lemma {:induction false} Tail(steps: seq<Act>, longer: seq<Act>, units: set<Unit>) returns (more: seq<Act>)
    requires steps <= longer && OnlyFrom(longer, units) && forall unit | unit in units :: SafeUnit(unit)
    ensures Safe(more) && AfterAll(AfterAll(NewSystem(), steps), more) == AfterAll(NewSystem(), longer)
  {
    more := longer[|steps|..];
    assert longer == steps + more;
    AfterConcat(NewSystem(), steps, more);
  }

  /** In every state of a safe run: some safe continuation brings the source a new winner, so new events, exactly
      when it is not sealed. */
  lemma WritableExactlyUnlessSealed(steps: seq<Act>, id: Guid)
    requires Safe(steps)
    ensures var s := AfterAll(NewSystem(), steps);
      (exists more | Safe(more) :: WinsOf(AfterAll(s, more).race, id) != WinsOf(s.race, id)) <==> !Sealed(s.race, id)
  {
    var s := AfterAll(NewSystem(), steps);
    if Sealed(s.race, id) {
      var race := SafeRunIsRace(steps);
      forall more | Safe(more)
        ensures WinsOf(AfterAll(s, more).race, id) == WinsOf(s.race, id)
      {
        SafeSealedIsForever(s, more, id);
      }
    } else {
      var more := UnsealedTakesUnit(steps, id);
    }
  }

  // ----- Both ways to be sealed happen -----

  lemma {:induction false} FirstUnitWins(id: Guid, e: UncommittedEvent) returns (steps: seq<Act>, s: System)
    requires e.sourceId == id && e.initialVersion == 0 && e.sequence >= 1
    ensures Reaches(steps, s, {Unit([e], map[])}) && s.race.writers == [Writer([[e]], Saving(0))]
    ensures WinsOf(s.race, id) == [Win(0, [e])] && CountOf(s.race.db, id) == 0
  {
    steps, s := Wins([], NewSystem(), {Unit([e], map[])}, Unit([e], map[]), [e]);
  }

  lemma OneUnitIsSafe(steps: seq<Act>, s: System, e: UncommittedEvent)
    requires Reaches(steps, s, {Unit([e], map[])})
    ensures Safe(steps)
  {
  }

  lemma OwnedOne(e: UncommittedEvent)
    ensures Owned([Win(0, [e])]) == [e]
  {
    assert [Win(0, [e])][..0] == [];
  }

  /** A process stops when its version is recorded and its event not yet saved. */
  lemma {:induction false} CutShortIsReachable(id: Guid) returns (steps: seq<Act>, s: System)
    ensures Safe(steps) && s == AfterAll(NewSystem(), steps) && CutShort(s.race, id) && !Gapped(s.race, id)
  {
    var e := UncommittedEvent(id, 1, 0, "");
    steps, s := FirstUnitWins(id, e);
    OwnedOne(e);
    steps, s := Do(steps, s, {Unit([e], map[])}, Die(0));
    OneUnitIsSafe(steps, s, e);
  }

  /** A first batch of a source that begins with number 2: the call that took number 1 threw. */
  lemma {:induction false} GappedIsReachable(id: Guid) returns (steps: seq<Act>, s: System)
    ensures Safe(steps) && s == AfterAll(NewSystem(), steps) && Gapped(s.race, id) && !CutShort(s.race, id)
  {
    var e := UncommittedEvent(id, 2, 0, "");
    steps, s := FirstUnitWins(id, e);
    OwnedOne(e);
    OneUnitIsSafe(steps, s, e);
    assert Holds(s.race.writers[0], id);
  }
}
