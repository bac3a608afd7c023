/** When a source of the MongoDB event store can still get new events, and when never again. */
module MongoSealed {
  import opened EventStreams
  import opened MongoStore
  import opened MongoRace

  ghost predicate Sealed(s: State, id: Guid) {
    Gapped(s, id) || CutShort(s, id)
  }

  lemma SealedStays(s: State, step: Step, id: Guid)
    requires Invariant(s) && Sealed(s, id)
    ensures WinsOf(Next(s, step), id) == WinsOf(s, id) && Sealed(Next(s, step), id)
  {
    if Decides(s, step) {
      DecidingIsAtomicAppend(s, step.writer);
    } else {
      OtherStepsKeepWins(s, step);
    }
    if CutShort(s, id) {
      CutShortStays(s, step, id);
    }
  }

  /** What is recorded but not stored while a writer holds the source. */
  ghost function Missing(s: State, id: Guid): int {
    |Owned(WinsOf(s, id))| - CountOf(s.db, id)
  }

  /** The writer holds the source, in a reachable state. */
  ghost predicate HoldsIn(s: State, w: nat, id: Guid) {
    Reachable(s) && w < |s.writers| && Holds(s.writers[w], id)
  }

  lemma HolderProgresses(s: State, w: nat, id: Guid)
    requires Invariant(s) && w < |s.writers| && Holds(s.writers[w], id)
    ensures var s' := Next(s, Progress(w));
      && w < |s'.writers| && WinsOf(s', id) == WinsOf(s, id) && Missing(s, id) >= 1
      && (s.writers[w].phase.Saving? ==>
            Missing(s', id) == Missing(s, id) && s'.writers[w].phase.Inserting? && Holds(s'.writers[w], id))
      && (s.writers[w].phase.Inserting? ==>
            Missing(s', id) == Missing(s, id) - 1 && (Missing(s', id) > 0 ==> Holds(s'.writers[w], id)))
  {
    assert WriterOk(s, w);
    assert SourceOk(id, StoredEvents(s.db.events, id), GetVersion(s.db, id), WinsOf(s, id));
    LastWin(id, StoredEvents(s.db.events, id), GetVersion(s.db, id), WinsOf(s, id));
    if s.writers[w].phase.Inserting? {
      var es, phase := s.writers[w].groups[0], s.writers[w].phase;
      StoredAfterInsert(s.db.events, DomainEvent(phase.sequentialId, Committed(es[phase.saved])), id);
    }
  }

  /** How many operations it takes until everything recorded is stored. */
  ghost function ToDo(s: State, w: nat, id: Guid): int {
    2 * Missing(s, id) + if w < |s.writers| && s.writers[w].phase.Saving? then 1 else 0
  }

  lemma {:induction false} HolderStep(s: State, w: nat, id: Guid) returns (s': State)
    requires HoldsIn(s, w, id)
    ensures s' == Run(s, [Progress(w)]) && Reachable(s') && WinsOf(s', id) == WinsOf(s, id)
    ensures 0 <= Missing(s', id) && 0 <= ToDo(s', w, id) < ToDo(s, w, id)
    ensures Missing(s', id) > 0 ==> HoldsIn(s', w, id)
  {
    s' := Next(s, Progress(w));
    ReachableKeeps(s);
    HolderProgresses(s, w, id);
    ReachableNext(s, Progress(w));
    RunOne(s, Progress(w));
  }

  /** One more event on top of all that is stored. */
  function NextEvents(s: State, id: Guid): seq<UncommittedEvent> {
    [UncommittedEvent(id, CountOf(s.db, id) + 1, CountOf(s.db, id), "")]
  }

  lemma MissingIsHeld(s: State, id: Guid)
    requires Reachable(s) && !CutShort(s, id) && Missing(s, id) != 0
    ensures !NoOwner(s, id)
  {
    ReachableKeeps(s);
    assert SourceOk(id, StoredEvents(s.db.events, id), GetVersion(s.db, id), WinsOf(s, id));
  }
}
