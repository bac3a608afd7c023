/** MongoDBEventStore under any number of concurrent writers and readers, any of which may stop at any point. */
module MongoRace {
  import opened Common
  import opened EventStreams
  import opened MongoStore

  /** Where a writer is inside StoreEventsFromSource and SaveEvents, for the first of its remaining groups. */
  datatype Phase =
    | Reading                                     // about to read the recorded version
    | Deciding(found: Option<int>)                // read it; about to insert or update it
    | Saving(saved: nat)                          // owns the version; about to take the next sequential id
    | Inserting(saved: nat, sequentialId: int)    // about to insert the next event
    | Stopped(how: Ending)

  /** Store returned or threw, or the process stopped inside it. */
  datatype Ending = Ended(outcome: Outcome) | Crashed

  datatype Writer = Writer(groups: seq<seq<UncommittedEvent>>, phase: Phase)

  /** A writer that got its version recorded, and what it then owns to save. */
  datatype Win = Win(writer: nat, events: seq<UncommittedEvent>)

  /** `wins` is the history: per source, who got a version recorded, in order. */
  datatype State = State(db: Db, writers: seq<Writer>, wins: map<Guid, seq<Win>>)

  const EMPTY_DB := Db(map[], 0, [])

  function Init(): State {
    State(EMPTY_DB, [], map[])
  }

  datatype Step =
    | Begin(stream: seq<UncommittedEvent>)  // a unit of work calls Store
    | Progress(writer: nat)                 // one database operation of a writer
    | Crash(writer: nat)

  function WinsOf(s: State, id: Guid): seq<Win> {
    if id in s.wins then s.wins[id] else []
  }

  function CountOf(db: Db, id: Guid): nat {
    |StoredEvents(db.events, id)|
  }

  /** Numbered 1, 2, ... */
  predicate Numbered(es: seq<CommittedEvent>) {
    forall i | 0 <= i < |es| :: es[i].sequence == i + 1
  }

  /** Numbered on from `n` without a gap. */
  predicate IsGapless(es: seq<UncommittedEvent>, n: int) {
    forall i | 0 <= i < |es| :: es[i].sequence == n + 1 + i
  }

  /** Events of one source, all applied on top of the version `initialVersion`, with numbers going up from there. A
      number may be missing: a call that threw has used it up. */
  predicate IsBatch(es: seq<UncommittedEvent>) {
    && es != [] && es[0].initialVersion >= 0
    && (forall i | 0 <= i < |es| ::
          && es[i].sourceId == es[0].sourceId
          && es[i].initialVersion == es[0].initialVersion
          && es[i].sequence > es[0].initialVersion)
    && forall i, j | 0 <= i < j < |es| :: es[i].sequence < es[j].sequence
  }

  /** An aggregate can have been loaded at version `n`: that many events are there, and they make a stream from 1. */
  predicate Loadable(db: Db, id: Guid, n: int) {
    0 <= n && NumberedUpTo(StoredEvents(db.events, id), n)
  }

  /** Some winner's batch has a gap. */
  predicate Gapped(s: State, id: Guid) {
    !IsGapless(Owned(WinsOf(s, id)), 0)
  }

  /** A version that no writer on top of it can win with: it is ahead of a source that nobody wins any more. */
  predicate Dead(s: State, id: Guid, n: int) {
    Gapped(s, id) && n > |Owned(WinsOf(s, id))|
  }

  predicate Harmless(s: State, id: Guid, n: int) {
    Loadable(s.db, id, n) || Dead(s, id, n)
  }

  /** What a unit of work may hold: per source one aggregate's events on top of a harmless version. */
  predicate IsLoaded(s: State, stream: seq<UncommittedEvent>) {
    forall i | 0 <= i < |stream| ::
      var group := OfSource(stream, stream[i].sourceId);
      IsBatch(group) && Harmless(s, stream[i].sourceId, group[0].initialVersion)
  }

  function Next(s: State, step: Step): State {
    match step
    case Begin(stream) =>
      if IsLoaded(s, stream) then s.(writers := s.writers + [Writer(GroupBySource(stream), Reading)]) else s
    case Progress(w) => if w < |s.writers| then ProgressStep(s, w) else s
    case Crash(w) => if w < |s.writers| && !s.writers[w].phase.Stopped? then Stop(s, w, Crashed) else s
  }

  function SetPhase(s: State, w: nat, phase: Phase): State
    requires w < |s.writers|
  {
    s.(writers := s.writers[w := s.writers[w].(phase := phase)])
  }

  function Stop(s: State, w: nat, how: Ending): State
    requires w < |s.writers|
  {
    SetPhase(s, w, Stopped(how))
  }

  function ProgressStep(s: State, w: nat): State
    requires w < |s.writers|
  {
    var writer := s.writers[w];
    if writer.phase.Stopped? then s
    else if writer.groups == [] || writer.groups[0] == [] then Stop(s, w, Ended(Stored))
    else
      var es := writer.groups[0];
      match writer.phase
      case Reading => SetPhase(s, w, Deciding(GetVersion(s.db, es[0].sourceId)))
      case Deciding(None) =>
        (match AddEventSource(s.db, es[0].sourceId, NewVersion(es))
         case None => Stop(s, w, Ended(DuplicateKey))
         case Some(added) => WinStep(s.(db := added), w, es))
      case Deciding(Some(version)) =>
        if version == es[0].initialVersion && Updates(s.db, es[0].sourceId, NewVersion(es), es[0].initialVersion) then
          WinStep(s.(db := UpdateVersion(s.db, es[0].sourceId, NewVersion(es), es[0].initialVersion)), w, es)
        else Stop(s, w, Ended(ConcurrencyException(es[0].sourceId, NewVersion(es))))
      case Saving(saved) => SetPhase(s.(db := NextSequence(s.db)), w, Inserting(saved, s.db.counter + 1))
      case Inserting(saved, sequentialId) =>
        if saved < |es| then InsertStep(s, w, es, saved, sequentialId) else Stop(s, w, Ended(Stored))
  }

  function WinStep(s: State, w: nat, es: seq<UncommittedEvent>): State
    requires w < |s.writers| && es != []
  {
    SetPhase(s.(wins := s.wins[es[0].sourceId := WinsOf(s, es[0].sourceId) + [Win(w, es)]]), w, Saving(0))
  }

  function InsertStep(s: State, w: nat, es: seq<UncommittedEvent>, saved: nat, sequentialId: int): State
    requires w < |s.writers| && s.writers[w].groups != [] && saved < |es|
  {
    var writer := if saved + 1 < |es| then s.writers[w].(phase := Saving(saved + 1))
                  else Writer(s.writers[w].groups[1..], Reading);
    s.(db := InsertEvent(s.db, sequentialId, es[saved]), writers := s.writers[w := writer])
  }

  function Run(s: State, steps: seq<Step>): State {
    if steps == [] then s else Next(Run(s, steps[..|steps| - 1]), steps[|steps| - 1])
  }

  lemma RunMore(s: State, steps: seq<Step>, step: Step)
    ensures Run(s, steps + [step]) == Next(Run(s, steps), step)
  {
    assert (steps + [step])[..|steps|] == steps;
  }

  lemma RunOne(s: State, step: Step)
    ensures Run(s, [step]) == Next(s, step)
  {
    RunMore(s, [], step);
    assert [] + [step] == [step];
  }

  lemma {:induction false} RunConcat(s: State, steps: seq<Step>, more: seq<Step>)
    ensures Run(s, steps + more) == Run(Run(s, steps), more)
  {
    if more == [] {
      assert steps + more == steps;
    } else {
      assert (steps + more)[..|steps + more| - 1] == steps + more[..|more| - 1];
      RunConcat(s, steps, more[..|more| - 1]);
    }
  }

  // ----- One source's history -----

  /** Everything the winners own, in winning order. */
  function Owned(wins: seq<Win>): seq<UncommittedEvent> {
    if wins == [] then [] else Owned(wins[..|wins| - 1]) + wins[|wins| - 1].events
  }

  /** Each winner's version is exactly where the previous winners end, and these left no gap. */
  predicate IsChain(id: Guid, wins: seq<Win>) {
    wins == [] ||
    (var before, last := Owned(wins[..|wins| - 1]), wins[|wins| - 1].events;
     && IsChain(id, wins[..|wins| - 1]) && IsGapless(before, 0)
     && IsBatch(last) && last[0].sourceId == id && last[0].initialVersion == |before|)
  }

  /** What is stored is what the winners own, up to some point inside the last winner's events. */
  ghost predicate SourceOk(id: Guid, stored: seq<CommittedEvent>, version: Option<int>, wins: seq<Win>) {
    && IsChain(id, wins)
    && (version == if wins == [] then None else Some(|Owned(wins)|))
    && stored <= AllCommitted(Owned(wins))
    && (wins != [] ==> |Owned(wins[..|wins| - 1])| <= |stored|)
  }

  lemma {:induction false} BatchNumbers(es: seq<UncommittedEvent>, i: nat)
    requires IsBatch(es) && i < |es|
    ensures es[i].sequence >= es[0].initialVersion + 1 + i
  {
    if i > 0 {
      BatchNumbers(es, i - 1);
    }
  }

  /** Owned numbers go up, so none occurs twice. */
  lemma {:induction false} ChainAscends(id: Guid, wins: seq<Win>)
    requires IsChain(id, wins)
    ensures forall i | 0 <= i < |Owned(wins)| :: Owned(wins)[i].sourceId == id && Owned(wins)[i].sequence >= i + 1
    ensures forall i, j | 0 <= i < j < |Owned(wins)| :: Owned(wins)[i].sequence < Owned(wins)[j].sequence
  {
    if wins != [] {
      var last := wins[|wins| - 1].events;
      ChainAscends(id, wins[..|wins| - 1]);
      forall i | 0 <= i < |last|
        ensures last[i].sequence >= last[0].initialVersion + 1 + i
      {
        BatchNumbers(last, i);
      }
    }
  }

  /** Loadable at the recorded version: everything owned is stored, and gapless. */
  lemma FullyStored(stored: seq<CommittedEvent>, owned: seq<UncommittedEvent>)
    requires stored <= AllCommitted(owned) && NumberedUpTo(stored, |owned|)
    ensures |stored| == |owned| && IsGapless(owned, 0)
  {
    assert forall i | 0 <= i < |owned| :: stored[i] == Committed(owned[i]);
  }

  lemma ExpectsRecorded(id: Guid, stored: seq<CommittedEvent>, version: Option<int>, wins: seq<Win>, n: nat)
    requires SourceOk(id, stored, version, wins) && n <= |stored| && (version == None || version == Some(n))
    ensures n == |Owned(wins)|
  {
  }

  /** A new winner: the version it expected was the recorded one, and everything owned before is stored, gapless. */
  lemma SourceWins(id: Guid, stored: seq<CommittedEvent>, version: Option<int>, wins: seq<Win>, win: Win)
    requires SourceOk(id, stored, version, wins)
    requires IsBatch(win.events) && win.events[0].sourceId == id && NumberedUpTo(stored, win.events[0].initialVersion)
    requires version == None || version == Some(win.events[0].initialVersion)
    ensures SourceOk(id, stored, Some(NewVersion(win.events)), wins + [win])
    ensures |stored| == win.events[0].initialVersion == |Owned(wins)| && IsGapless(Owned(wins), 0)
  {
    ExpectsRecorded(id, stored, version, wins, win.events[0].initialVersion);
    FullyStored(stored, Owned(wins));
    LongerChain(id, wins, win);
    CommittedPrefix(stored, Owned(wins), win.events);
    LongerChainIsOk(id, stored, wins, win);
  }

  lemma LongerChainIsOk(id: Guid, stored: seq<CommittedEvent>, wins: seq<Win>, win: Win)
    requires IsChain(id, wins + [win]) && (wins + [win])[..|wins|] == wins
    requires Owned(wins + [win]) == Owned(wins) + win.events && stored <= AllCommitted(Owned(wins) + win.events)
    requires win.events != [] && win.events[0].initialVersion == |Owned(wins)| == |stored|
    ensures SourceOk(id, stored, Some(NewVersion(win.events)), wins + [win])
  {
  }

  lemma LongerChain(id: Guid, wins: seq<Win>, win: Win)
    requires IsChain(id, wins) && IsGapless(Owned(wins), 0)
    requires IsBatch(win.events) && win.events[0].sourceId == id && win.events[0].initialVersion == |Owned(wins)|
    ensures IsChain(id, wins + [win]) && (wins + [win])[..|wins|] == wins
    ensures Owned(wins + [win]) == Owned(wins) + win.events
  {
    assert (wins + [win])[..|wins|] == wins && (wins + [win])[|wins|] == win;
  }

  lemma CommittedPrefix(stored: seq<CommittedEvent>, owned: seq<UncommittedEvent>, more: seq<UncommittedEvent>)
    requires stored <= AllCommitted(owned)
    ensures stored <= AllCommitted(owned + more)
  {
    assert AllCommitted(owned + more)[..|owned|] == AllCommitted(owned);
  }

  /** The owner saves its next event. */
  lemma SourceSaves(id: Guid, stored: seq<CommittedEvent>, version: Option<int>, wins: seq<Win>, saved: nat)
    requires SourceOk(id, stored, version, wins) && wins != []
    requires saved < |wins[|wins| - 1].events| && |stored| == wins[|wins| - 1].events[0].initialVersion + saved
    ensures SourceOk(id, stored + [Committed(wins[|wins| - 1].events[saved])], version, wins)
  {
    assert Owned(wins)[|stored|] == wins[|wins| - 1].events[saved];
  }

  // ----- The invariant -----

  ghost predicate Owns(w: Writer) {
    w.phase.Saving? || w.phase.Inserting?
  }

  /** A writer that holds its current source: it won last, and has stored `saved` of its events. */
  ghost predicate OwnerOk(s: State, w: nat)
    requires w < |s.writers| && Owns(s.writers[w])
  {
    var writer := s.writers[w];
    && writer.groups != [] && IsBatch(writer.groups[0])
    && var es, id := writer.groups[0], writer.groups[0][0].sourceId;
    && WinsOf(s, id) != [] && WinsOf(s, id)[|WinsOf(s, id)| - 1] == Win(w, es)
    && writer.phase.saved < |es| && CountOf(s.db, id) == es[0].initialVersion + writer.phase.saved
  }

  /** A writer that has read a version: versions only grow, so it may be out of date, but it is not below the one the
      writer's aggregate was loaded at, unless that is dead. */
  ghost predicate FoundOk(found: Option<int>, initialVersion: int, wins: seq<Win>) {
    match found
    case None => initialVersion == 0
    case Some(version) =>
      && wins != [] && version <= |Owned(wins)|
      && (initialVersion <= version || (!IsGapless(Owned(wins), 0) && initialVersion > |Owned(wins)|))
  }

  ghost predicate DeciderOk(s: State, w: nat)
    requires w < |s.writers| && s.writers[w].phase.Deciding?
  {
    var writer := s.writers[w];
    && writer.groups != [] && writer.groups[0] != []
    && FoundOk(writer.phase.found, writer.groups[0][0].initialVersion, WinsOf(s, writer.groups[0][0].sourceId))
  }

  /** What a writer still has to win was loaded from what is stored. */
  ghost predicate PlanOk(s: State, groups: seq<seq<UncommittedEvent>>) {
    && (forall i | 0 <= i < |groups| :: IsBatch(groups[i]))
    && (forall i | 0 <= i < |groups| :: Harmless(s, groups[i][0].sourceId, groups[i][0].initialVersion))
    && DistinctSources(groups)
  }

  ghost predicate WriterOk(s: State, w: nat)
    requires w < |s.writers|
  {
    && PlanOk(s, s.writers[w].groups)
    && (Owns(s.writers[w]) ==> OwnerOk(s, w))
    && (s.writers[w].phase.Deciding? ==> DeciderOk(s, w))
  }

  ghost predicate SourcesOk(s: State) {
    forall id :: SourceOk(id, StoredEvents(s.db.events, id), GetVersion(s.db, id), WinsOf(s, id))
  }

  ghost predicate Invariant(s: State) {
    SourcesOk(s) && forall w: nat | w < |s.writers| :: WriterOk(s, w)
  }

  lemma StoredAfterInsert(events: seq<DomainEvent>, d: DomainEvent, id: Guid)
    ensures StoredEvents(events + [d], id) ==
            StoredEvents(events, id) + if d.event.sourceId == id then [d.event] else []
  {
    assert (events + [d])[..|events|] == events;
  }

  /** A writer moves on without touching versions, events or wins. */
  lemma MoveKeeps(s: State, s': State, w: nat)
    requires Invariant(s) && w < |s.writers| == |s'.writers| && s'.writers == s.writers[w := s'.writers[w]]
    requires s'.db.versions == s.db.versions && s'.db.events == s.db.events && s'.wins == s.wins
    requires WriterOk(s', w)
    ensures Invariant(s')
  {
    MoveSources(s, s');
    forall x: nat | x < |s'.writers|
      ensures WriterOk(s', x)
    {
      if x != w {
        assert s'.writers[x] == s.writers[x] && WriterOk(s, x);
        MoveWriter(s, s', x);
      }
    }
  }

  lemma MoveSources(s: State, s': State)
    requires SourcesOk(s) && s'.db.versions == s.db.versions && s'.db.events == s.db.events && s'.wins == s.wins
    ensures SourcesOk(s')
  {
    forall id
      ensures SourceOk(id, StoredEvents(s'.db.events, id), GetVersion(s'.db, id), WinsOf(s', id))
    {
      assert SourceOk(id, StoredEvents(s.db.events, id), GetVersion(s.db, id), WinsOf(s, id));
    }
  }

  lemma MoveWriter(s: State, s': State, x: nat)
    requires x < |s.writers| && WriterOk(s, x) && x < |s'.writers| && s'.writers[x] == s.writers[x]
    requires s'.db.events == s.db.events && s'.wins == s.wins
    ensures WriterOk(s', x)
  {
    assert forall id :: WinsOf(s', id) == WinsOf(s, id);
    assert PlanOk(s', s'.writers[x].groups);
  }

  /** An owner's source has recorded more than is stored, so no one else can win it. */
  lemma OwnerHoldsSource(s: State, w: nat)
    requires SourcesOk(s) && w < |s.writers| && Owns(s.writers[w]) && OwnerOk(s, w)
    ensures var id := s.writers[w].groups[0][0].sourceId; CountOf(s.db, id) < |Owned(WinsOf(s, id))|
  {
    var id := s.writers[w].groups[0][0].sourceId;
    assert SourceOk(id, StoredEvents(s.db.events, id), GetVersion(s.db, id), WinsOf(s, id));
  }

  lemma WinKeeps(s: State, w: nat, es: seq<UncommittedEvent>, db: Db)
    requires Invariant(s) && w < |s.writers| && s.writers[w].groups != [] && s.writers[w].groups[0] == es && es != []
    requires db == s.db.(versions := s.db.versions[es[0].sourceId := NewVersion(es)])
    requires GetVersion(s.db, es[0].sourceId) == None ||
             GetVersion(s.db, es[0].sourceId) == Some(es[0].initialVersion)
    ensures Invariant(WinStep(s.(db := db), w, es))
  {
    var s' := WinStep(s.(db := db), w, es);
    assert WriterOk(s, w);
    WinSources(s, w, es, db);
    forall x: nat | x < |s'.writers|
      ensures WriterOk(s', x)
    {
      assert WriterOk(s, x);
      WinWriter(s, w, es, db, x);
    }
  }

  /** A dead version is never the recorded one. */
  lemma DeadIsNotRecorded(id: Guid, stored: seq<CommittedEvent>, version: Option<int>, wins: seq<Win>, n: int)
    requires SourceOk(id, stored, version, wins) && !IsGapless(Owned(wins), 0) && n > |Owned(wins)|
    ensures version != None && version != Some(n)
  {
  }

  lemma WinSources(s: State, w: nat, es: seq<UncommittedEvent>, db: Db)
    requires SourcesOk(s) && w < |s.writers| && IsBatch(es) && Harmless(s, es[0].sourceId, es[0].initialVersion)
    requires db == s.db.(versions := s.db.versions[es[0].sourceId := NewVersion(es)])
    requires GetVersion(s.db, es[0].sourceId) == None ||
             GetVersion(s.db, es[0].sourceId) == Some(es[0].initialVersion)
    ensures SourcesOk(WinStep(s.(db := db), w, es))
    ensures var owned := Owned(WinsOf(s, es[0].sourceId));
      CountOf(s.db, es[0].sourceId) == es[0].initialVersion == |owned| && IsGapless(owned, 0)
  {
    var s', source := WinStep(s.(db := db), w, es), es[0].sourceId;
    var stored, version, wins := StoredEvents(s.db.events, source), GetVersion(s.db, source), WinsOf(s, source);
    assert SourceOk(source, stored, version, wins);
    if Dead(s, source, es[0].initialVersion) {
      DeadIsNotRecorded(source, stored, version, wins, es[0].initialVersion);
    }
    SourceWins(source, stored, version, wins, Win(w, es));
    forall id
      ensures SourceOk(id, StoredEvents(s'.db.events, id), GetVersion(s'.db, id), WinsOf(s', id))
    {
      assert SourceOk(id, StoredEvents(s.db.events, id), GetVersion(s.db, id), WinsOf(s, id));
      if id != source {
        assert WinsOf(s', id) == WinsOf(s, id) && GetVersion(s'.db, id) == GetVersion(s.db, id);
      }
    }
  }

  lemma WinWriter(s: State, w: nat, es: seq<UncommittedEvent>, db: Db, x: nat)
    requires SourcesOk(s) && w < |s.writers| && x < |s.writers| && WriterOk(s, x)
    requires s.writers[w].groups != [] && s.writers[w].groups[0] == es && IsBatch(es)
    requires CountOf(s.db, es[0].sourceId) == es[0].initialVersion == |Owned(WinsOf(s, es[0].sourceId))|
    requires IsGapless(Owned(WinsOf(s, es[0].sourceId)), 0)
    requires db.events == s.db.events
    ensures WriterOk(WinStep(s.(db := db), w, es), x)
  {
    var s', source := WinStep(s.(db := db), w, es), es[0].sourceId;
    WinsAfterWin(s, w, es, db);
    PlanAfterWin(s, s', source, s'.writers[x].groups);
    if x != w && Owns(s.writers[x]) {
      OwnerHoldsSource(s, x);
    } else if x != w && s.writers[x].phase.Deciding? {
      DeciderStays(s, s', x, source, Win(w, es));
    }
  }

  lemma WinsAfterWin(s: State, w: nat, es: seq<UncommittedEvent>, db: Db)
    requires w < |s.writers| && es != []
    ensures var s', source := WinStep(s.(db := db), w, es), es[0].sourceId;
      && WinsOf(s', source) == WinsOf(s, source) + [Win(w, es)]
      && forall id | id != source :: WinsOf(s', id) == WinsOf(s, id)
  {
  }

  /** What was harmless for the source that was won was loadable, since the source had no gap. */
  lemma PlanAfterWin(s: State, s': State, source: Guid, groups: seq<seq<UncommittedEvent>>)
    requires PlanOk(s, groups) && s'.db.events == s.db.events && IsGapless(Owned(WinsOf(s, source)), 0)
    requires forall id | id != source :: WinsOf(s', id) == WinsOf(s, id)
    ensures PlanOk(s', groups)
  {
  }

  lemma DeciderStays(s: State, s': State, x: nat, source: Guid, win: Win)
    requires x < |s.writers| && x < |s'.writers| && s'.writers[x] == s.writers[x]
    requires s.writers[x].phase.Deciding? && DeciderOk(s, x) && IsGapless(Owned(WinsOf(s, source)), 0)
    requires WinsOf(s', source) == WinsOf(s, source) + [win]
    requires forall id | id != source :: WinsOf(s', id) == WinsOf(s, id)
    ensures DeciderOk(s', x)
  {
    OwnedGrows(WinsOf(s, source), win);
  }

  lemma OwnedGrows(wins: seq<Win>, win: Win)
    ensures Owned(wins + [win]) == Owned(wins) + win.events
  {
    assert (wins + [win])[..|wins|] == wins;
  }

  lemma InsertKeeps(s: State, w: nat, sequentialId: int)
    requires Invariant(s) && w < |s.writers| && Owns(s.writers[w])
    ensures s.writers[w].groups != [] && s.writers[w].phase.saved < |s.writers[w].groups[0]|
    ensures Invariant(InsertStep(s, w, s.writers[w].groups[0], s.writers[w].phase.saved, sequentialId))
  {
    assert WriterOk(s, w);
    var s' := InsertStep(s, w, s.writers[w].groups[0], s.writers[w].phase.saved, sequentialId);
    InsertSources(s, w, sequentialId);
    forall x: nat | x < |s'.writers|
      ensures WriterOk(s', x)
    {
      assert WriterOk(s, x);
      InsertWriter(s, w, sequentialId, x);
    }
  }

  lemma InsertSources(s: State, w: nat, sequentialId: int)
    requires SourcesOk(s) && w < |s.writers| && Owns(s.writers[w]) && OwnerOk(s, w)
    ensures SourcesOk(InsertStep(s, w, s.writers[w].groups[0], s.writers[w].phase.saved, sequentialId))
  {
    var es, saved := s.writers[w].groups[0], s.writers[w].phase.saved;
    var s' := InsertStep(s, w, es, saved, sequentialId);
    var inserted := DomainEvent(sequentialId, Committed(es[saved]));
    assert inserted.event.sourceId == es[0].sourceId;
    forall id
      ensures SourceOk(id, StoredEvents(s'.db.events, id), GetVersion(s'.db, id), WinsOf(s', id))
    {
      assert SourceOk(id, StoredEvents(s.db.events, id), GetVersion(s.db, id), WinsOf(s, id));
      InsertSource(id, s.db.events, inserted, GetVersion(s.db, id), WinsOf(s, id), saved);
      assert s'.db.events == s.db.events + [inserted] && WinsOf(s', id) == WinsOf(s, id);
    }
  }

  lemma InsertSource(id: Guid, events: seq<DomainEvent>, d: DomainEvent, version: Option<int>, wins: seq<Win>,
                     saved: nat)
    requires SourceOk(id, StoredEvents(events, id), version, wins)
    requires d.event.sourceId == id ==>
      && wins != [] && saved < |wins[|wins| - 1].events| && d.event == Committed(wins[|wins| - 1].events[saved])
      && |StoredEvents(events, id)| == wins[|wins| - 1].events[0].initialVersion + saved
    ensures SourceOk(id, StoredEvents(events + [d], id), version, wins)
  {
    StoredAfterInsert(events, d, id);
    if d.event.sourceId == id {
      SourceSaves(id, StoredEvents(events, id), version, wins, saved);
    } else {
      assert StoredEvents(events + [d], id) == StoredEvents(events, id);
    }
  }

  lemma InsertWriter(s: State, w: nat, sequentialId: int, x: nat)
    requires w < |s.writers| && Owns(s.writers[w]) && WriterOk(s, w) && x < |s.writers| && WriterOk(s, x)
    ensures WriterOk(InsertStep(s, w, s.writers[w].groups[0], s.writers[w].phase.saved, sequentialId), x)
  {
    var es, saved := s.writers[w].groups[0], s.writers[w].phase.saved;
    var s' := InsertStep(s, w, es, saved, sequentialId);
    var inserted := DomainEvent(sequentialId, Committed(es[saved]));
    forall id
      ensures CountOf(s'.db, id) == CountOf(s.db, id) + if id == es[0].sourceId then 1 else 0
      ensures StoredEvents(s.db.events, id) <= StoredEvents(s'.db.events, id)
    {
      StoredAfterInsert(s.db.events, inserted, id);
    }
    PlanStays(s, s', s.writers[x].groups);
    if x == w {
      assert saved + 1 < |es| ==> OwnerOk(s', x);
      assert saved + 1 == |es| ==> PlanOk(s', s.writers[w].groups[1..]);
    } else if Owns(s.writers[x]) {
      assert s.writers[x].groups[0][0].sourceId != es[0].sourceId;
    }
  }

  /** What could be loaded can be loaded later as well. */
  lemma LoadableStays(db: Db, db': Db, id: Guid, n: int)
    requires Loadable(db, id, n) && StoredEvents(db.events, id) <= StoredEvents(db'.events, id)
    ensures Loadable(db', id, n)
  {
  }

  lemma PlanStays(s: State, s': State, groups: seq<seq<UncommittedEvent>>)
    requires PlanOk(s, groups) && s'.wins == s.wins
    requires forall id :: StoredEvents(s.db.events, id) <= StoredEvents(s'.db.events, id)
    ensures PlanOk(s', groups)
  {
    assert forall id :: WinsOf(s', id) == WinsOf(s, id);
    forall i | 0 <= i < |groups|
      ensures Harmless(s', groups[i][0].sourceId, groups[i][0].initialVersion)
    {
      if Loadable(s.db, groups[i][0].sourceId, groups[i][0].initialVersion) {
        LoadableStays(s.db, s'.db, groups[i][0].sourceId, groups[i][0].initialVersion);
      }
    }
  }

  lemma LoadedPlanIsOk(s: State, stream: seq<UncommittedEvent>)
    requires IsLoaded(s, stream)
    ensures PlanOk(s, GroupBySource(stream))
  {
    var groups := GroupBySource(stream);
    GroupsAreSources(stream);
    forall i | 0 <= i < |groups|
      ensures IsBatch(groups[i]) && Harmless(s, groups[i][0].sourceId, groups[i][0].initialVersion)
    {
      GroupMembers(stream, groups[i]);
    }
  }

  lemma BeginKeeps(s: State, stream: seq<UncommittedEvent>)
    requires Invariant(s) && IsLoaded(s, stream)
    ensures Invariant(Next(s, Begin(stream)))
  {
    LoadedPlanIsOk(s, stream);
    WriterAdded(s, Next(s, Begin(stream)), Writer(GroupBySource(stream), Reading));
  }

  lemma WriterAdded(s: State, s': State, writer: Writer)
    requires Invariant(s) && s' == s.(writers := s.writers + [writer])
    requires PlanOk(s, writer.groups) && writer.phase == Reading
    ensures Invariant(s')
  {
    MoveSources(s, s');
    assert forall id :: WinsOf(s', id) == WinsOf(s, id);
    assert PlanOk(s', writer.groups);
    forall x: nat | x < |s'.writers|
      ensures WriterOk(s', x)
    {
      if x < |s.writers| {
        assert s'.writers[x] == s.writers[x] && WriterOk(s, x);
        MoveWriter(s, s', x);
      }
    }
  }

  lemma ReadsFound(s: State, es: seq<UncommittedEvent>)
    requires SourcesOk(s) && IsBatch(es) && Harmless(s, es[0].sourceId, es[0].initialVersion)
    ensures FoundOk(GetVersion(s.db, es[0].sourceId), es[0].initialVersion, WinsOf(s, es[0].sourceId))
  {
    var id := es[0].sourceId;
    assert SourceOk(id, StoredEvents(s.db.events, id), GetVersion(s.db, id), WinsOf(s, id));
  }

  lemma ProgressKeeps(s: State, w: nat)
    requires Invariant(s) && w < |s.writers|
    ensures Invariant(ProgressStep(s, w))
  {
    assert WriterOk(s, w);
    var writer := s.writers[w];
    if writer.phase.Stopped? {
    } else if writer.groups == [] {
      MoveKeeps(s, Stop(s, w, Ended(Stored)), w);
    } else {
      var es := writer.groups[0];
      match writer.phase
      case Reading =>
        ReadsFound(s, es);
        MoveKeeps(s, ProgressStep(s, w), w);
      case Deciding(found) =>
        if GetVersion(s.db, es[0].sourceId) == found && (found == None || found == Some(es[0].initialVersion)) {
          WinKeeps(s, w, es, s.db.(versions := s.db.versions[es[0].sourceId := NewVersion(es)]));
        } else {
          MoveKeeps(s, ProgressStep(s, w), w);
        }
      case Saving(saved) => MoveKeeps(s, ProgressStep(s, w), w);
      case Inserting(saved, sequentialId) => InsertKeeps(s, w, sequentialId);
    }
  }

  lemma NextKeeps(s: State, step: Step)
    requires Invariant(s)
    ensures Invariant(Next(s, step))
  {
    match step
    case Begin(stream) => if IsLoaded(s, stream) { BeginKeeps(s, stream); }
    case Progress(w) => if w < |s.writers| { ProgressKeeps(s, w); }
    case Crash(w) =>
      if w < |s.writers| {
        assert WriterOk(s, w);
        MoveKeeps(s, Next(s, step), w);
      }
  }

  lemma {:induction false} RunKeeps(steps: seq<Step>)
    ensures Invariant(Run(Init(), steps))
  {
    if steps != [] {
      RunKeeps(steps[..|steps| - 1]);
      NextKeeps(Run(Init(), steps[..|steps| - 1]), steps[|steps| - 1]);
    }
  }

  // ----- What stays harmless -----

  /** Nothing stored is ever removed or reordered. */
  lemma StepOnlyGrows(s: State, step: Step, id: Guid)
    ensures StoredEvents(s.db.events, id) <= StoredEvents(Next(s, step).db.events, id)
  {
    if step.Progress? && step.writer < |s.writers| && Next(s, step).db.events != s.db.events {
      var phase, es := s.writers[step.writer].phase, s.writers[step.writer].groups[0];
      StoredAfterInsert(s.db.events, DomainEvent(phase.sequentialId, Committed(es[phase.saved])), id);
    }
  }

  lemma HarmlessStays(s: State, step: Step, id: Guid, n: int)
    requires Invariant(s) && Harmless(s, id, n)
    ensures Harmless(Next(s, step), id, n)
  {
    if Loadable(s.db, id, n) {
      StepOnlyGrows(s, step, id);
      LoadableStays(s.db, Next(s, step).db, id, n);
    } else {
      GappedIsNotWon(s, step, id);
    }
  }

  lemma GappedIsNotWon(s: State, step: Step, id: Guid)
    requires Invariant(s) && Gapped(s, id)
    ensures WinsOf(Next(s, step), id) == WinsOf(s, id)
  {
    if Decides(s, step) {
      DecidingIsAtomicAppend(s, step.writer);
    } else {
      OtherStepsKeepWins(s, step);
    }
  }

  lemma {:induction false} GappedNumbers(es: seq<UncommittedEvent>)
    requires IsBatch(es) && !IsGapless(es, es[0].initialVersion)
    ensures es[|es| - 1].sequence > NewVersion(es)
  {
    BatchNumbers(es, |es| - 1);
    if es[|es| - 1].sequence == NewVersion(es) {
      forall i | 0 <= i < |es|
        ensures es[i].sequence == es[0].initialVersion + 1 + i
      {
        BatchNumbers(es, i);
        NumbersApart(es, i, |es| - 1);
      }
    }
  }

  lemma {:induction false} NumbersApart(es: seq<UncommittedEvent>, i: nat, j: nat)
    requires IsBatch(es) && i <= j < |es|
    ensures es[j].sequence - es[i].sequence >= j - i
  {
    if i < j {
      NumbersApart(es, i, j - 1);
    }
  }

  // ----- What every run guarantees -----

  ghost predicate Reachable(s: State) {
    exists steps: seq<Step> :: s == Run(Init(), steps)
  }

  lemma ReachableKeeps(s: State)
    requires Reachable(s)
    ensures Invariant(s)
  {
    var steps: seq<Step> :| s == Run(Init(), steps);
    RunKeeps(steps);
  }

  lemma ReachableNext(s: State, step: Step)
    requires Reachable(s)
    ensures Reachable(Next(s, step))
  {
    var steps: seq<Step> :| s == Run(Init(), steps);
    RunMore(Init(), steps, step);
  }

  lemma RunSource(steps: seq<Step>, id: Guid)
    ensures var s := Run(Init(), steps);
      SourceOk(id, StoredEvents(s.db.events, id), GetVersion(s.db, id), WinsOf(s, id))
  {
    RunKeeps(steps);
  }

  /** The stored events of a source have numbers that go up, so none is stored twice, and are never more than the
      recorded version says. */
  lemma StoredAscends(steps: seq<Step>, id: Guid)
    ensures var s := Run(Init(), steps);
      var stored := StoredEvents(s.db.events, id);
      && SequencesAscend(stored)
      && (forall i | 0 <= i < |stored| :: stored[i].sequence >= i + 1 && stored[i].sourceId == id)
      && (match GetVersion(s.db, id) case None => stored == [] case Some(version) => |stored| <= version)
  {
    RunSource(steps, id);
    var s := Run(Init(), steps);
    SourceAscends(id, StoredEvents(s.db.events, id), GetVersion(s.db, id), WinsOf(s, id));
  }

  lemma SourceAscends(id: Guid, stored: seq<CommittedEvent>, version: Option<int>, wins: seq<Win>)
    requires SourceOk(id, stored, version, wins)
    ensures SequencesAscend(stored)
    ensures forall i | 0 <= i < |stored| :: stored[i].sequence >= i + 1 && stored[i].sourceId == id
    ensures match version case None => stored == [] case Some(v) => |stored| <= v
  {
    ChainAscends(id, wins);
    assert forall i | 0 <= i < |stored| :: stored[i] == AllCommitted(Owned(wins))[i];
  }

  /** Numbered 1, 2, ... without a gap exactly when the part that is stored of the last winner's batch has none: the
      earlier winners left none, since nobody wins on top of a gap. */
  ghost predicate OnlyLastMayGap(stored: seq<CommittedEvent>, wins: seq<Win>) {
    wins != [] ==>
      var before, last := Owned(wins[..|wins| - 1]), wins[|wins| - 1].events;
      && |before| <= |stored| <= |before| + |last| && IsGapless(before, 0)
      && (Numbered(stored) <==> IsGapless(last[..|stored| - |before|], |before|))
  }

  lemma StoredIsNumberedExactlyWhenGapless(steps: seq<Step>, id: Guid)
    ensures OnlyLastMayGap(StoredEvents(Run(Init(), steps).db.events, id), WinsOf(Run(Init(), steps), id))
  {
    RunSource(steps, id);
    var s := Run(Init(), steps);
    SourceIsNumbered(id, StoredEvents(s.db.events, id), GetVersion(s.db, id), WinsOf(s, id));
  }

  lemma SourceIsNumbered(id: Guid, stored: seq<CommittedEvent>, version: Option<int>, wins: seq<Win>)
    requires SourceOk(id, stored, version, wins)
    ensures OnlyLastMayGap(stored, wins)
  {
    if wins != [] {
      LastWin(id, stored, version, wins);
      NumberedParts(stored, Owned(wins[..|wins| - 1]), wins[|wins| - 1].events);
    }
  }

  lemma LastWin(id: Guid, stored: seq<CommittedEvent>, version: Option<int>, wins: seq<Win>)
    requires SourceOk(id, stored, version, wins) && wins != []
    ensures var before, last := Owned(wins[..|wins| - 1]), wins[|wins| - 1].events;
      && IsGapless(before, 0) && |before| <= |stored| && stored <= AllCommitted(before + last)
      && IsBatch(last) && last[0].sourceId == id && last[0].initialVersion == |before|
  {
  }

  lemma NumberedParts(stored: seq<CommittedEvent>, before: seq<UncommittedEvent>, last: seq<UncommittedEvent>)
    requires stored <= AllCommitted(before + last) && |before| <= |stored| && IsGapless(before, 0)
    ensures |stored| <= |before| + |last|
    ensures Numbered(stored) <==> IsGapless(last[..|stored| - |before|], |before|)
  {
    assert forall i | 0 <= i < |before| :: stored[i] == Committed(before[i]);
    assert forall i | 0 <= i < |stored| - |before| :: stored[|before| + i] == Committed(last[i]);
  }

  // ----- Units of work that leave no gap -----

  /** Every source's events are numbered on from the version they were applied to. */
  predicate GaplessStream(stream: seq<UncommittedEvent>) {
    forall i | 0 <= i < |stream| ::
      var group := OfSource(stream, stream[i].sourceId);
      group != [] && IsGapless(group, group[0].initialVersion)
  }

  /** In all units of work but possibly those that hand over exactly `stream`. */
  predicate GaplessBut(steps: seq<Step>, stream: seq<UncommittedEvent>) {
    forall i | 0 <= i < |steps| && steps[i].Begin? :: GaplessStream(steps[i].stream) || steps[i].stream == stream
  }

  predicate GaplessBatch(es: seq<UncommittedEvent>) {
    es != [] && IsGapless(es, es[0].initialVersion)
  }

  ghost predicate GaplessState(s: State) {
    && (forall w, i | 0 <= w < |s.writers| && 0 <= i < |s.writers[w].groups| :: GaplessBatch(s.writers[w].groups[i]))
    && forall id, i | 0 <= i < |WinsOf(s, id)| :: GaplessBatch(WinsOf(s, id)[i].events)
  }

  lemma {:induction false} RunIsGapless(steps: seq<Step>)
    requires GaplessBut(steps, [])
    ensures GaplessState(Run(Init(), steps))
  {
    if steps != [] {
      var front := steps[..|steps| - 1];
      RunIsGapless(front);
      NextIsGapless(Run(Init(), front), steps[|steps| - 1]);
    }
  }

  lemma NextIsGapless(s: State, step: Step)
    requires GaplessState(s) && (step.Begin? ==> GaplessStream(step.stream))
    ensures GaplessState(Next(s, step))
  {
    match step
    case Begin(stream) =>
      GroupsAreGapless(stream);
      SameWinsAreGapless(s, Next(s, step));
    case Progress(w) => if w < |s.writers| { ProgressIsGapless(s, w); }
    case Crash(w) => SameWinsAreGapless(s, Next(s, step));
  }

  lemma SameWinsAreGapless(s: State, s': State)
    requires GaplessState(s) && s'.wins == s.wins
    requires forall w, i | 0 <= w < |s'.writers| && 0 <= i < |s'.writers[w].groups| ::
        GaplessBatch(s'.writers[w].groups[i])
    ensures GaplessState(s')
  {
    assert forall id :: WinsOf(s', id) == WinsOf(s, id);
  }

  lemma ProgressIsGapless(s: State, w: nat)
    requires GaplessState(s) && w < |s.writers|
    ensures GaplessState(ProgressStep(s, w))
  {
    var s' := ProgressStep(s, w);
    WinnerOwnsFirstGroup(s, w);
    assert forall x | 0 <= x < |s.writers| && x != w :: s'.writers[x] == s.writers[x];
    forall id, i | 0 <= i < |WinsOf(s', id)|
      ensures GaplessBatch(WinsOf(s', id)[i].events)
    {
      assert i < |WinsOf(s, id)| ==> WinsOf(s', id)[i] == WinsOf(s, id)[i];
    }
  }

  /** What a step of a writer leaves it to do, and what it can win. */
  lemma WinnerOwnsFirstGroup(s: State, w: nat)
    requires w < |s.writers|
    ensures |ProgressStep(s, w).writers| == |s.writers|
    ensures forall x | 0 <= x < |s.writers| && x != w :: ProgressStep(s, w).writers[x] == s.writers[x]
    ensures var groups, groups' := s.writers[w].groups, ProgressStep(s, w).writers[w].groups;
      groups' == groups || (groups != [] && groups' == groups[1..])
    ensures forall id ::
      || WinsOf(ProgressStep(s, w), id) == WinsOf(s, id)
      || (s.writers[w].groups != [] &&
          WinsOf(ProgressStep(s, w), id) == WinsOf(s, id) + [Win(w, s.writers[w].groups[0])])
  {
  }

  lemma GroupsAreGapless(stream: seq<UncommittedEvent>)
    requires GaplessStream(stream)
    ensures forall i | 0 <= i < |GroupBySource(stream)| :: GaplessBatch(GroupBySource(stream)[i])
  {
    var groups := GroupBySource(stream);
    GroupsAreSources(stream);
    forall i | 0 <= i < |groups|
      ensures GaplessBatch(groups[i])
    {
      GroupMembers(stream, groups[i]);
    }
  }

  /** In every run whose units of work leave no gap, the stored events of every source are numbered 1, 2, ... */
  lemma GaplessWorkIsNumbered(steps: seq<Step>, id: Guid)
    requires GaplessBut(steps, [])
    ensures Numbered(StoredEvents(Run(Init(), steps).db.events, id))
  {
    RunKeeps(steps);
    RunIsGapless(steps);
    StoredIsNumberedExactlyWhenGapless(steps, id);
    var s := Run(Init(), steps);
    assert SourceOk(id, StoredEvents(s.db.events, id), GetVersion(s.db, id), WinsOf(s, id));
  }

  /** The writer is saving events of the source, or about to. */
  predicate Holds(w: Writer, id: Guid) {
    (w.phase.Saving? || w.phase.Inserting?) && w.groups != [] && w.groups[0] != [] && w.groups[0][0].sourceId == id
  }

  lemma HolderWonLast(s: State, w: nat, id: Guid)
    requires w < |s.writers| && WriterOk(s, w) && Holds(s.writers[w], id)
    ensures WinsOf(s, id) != [] && WinsOf(s, id)[|WinsOf(s, id)| - 1].writer == w
  {
  }

  /** At most one writer per source still owns unsaved events. */
  lemma OneOwnerPerSource(steps: seq<Step>, id: Guid, w: nat, x: nat)
    ensures var s := Run(Init(), steps);
      w < |s.writers| && x < |s.writers| && Holds(s.writers[w], id) && Holds(s.writers[x], id) ==> w == x
  {
    RunKeeps(steps);
    var s := Run(Init(), steps);
    if w < |s.writers| && x < |s.writers| && Holds(s.writers[w], id) && Holds(s.writers[x], id) {
      HolderWonLast(s, w, id);
      HolderWonLast(s, x, id);
    }
  }

  // ----- Refinement of an atomic log -----

  /** What the store amounts to for one source: a batch is appended as a whole exactly when its initial version is
      the length so far. */
  function AtomicAppend(log: seq<Win>, win: Win): Option<seq<Win>>
    requires win.events != []
  {
    if win.events[0].initialVersion == |Owned(log)| then Some(log + [win]) else None
  }

  /** The step in which a writer's insert or update of the version is made. */
  ghost predicate Decides(s: State, step: Step) {
    step.Progress? && step.writer < |s.writers| && s.writers[step.writer].phase.Deciding?
  }

  /** A writer that had found no version is refused by the insert, any other one by the comparison or the update. */
  function Refusal(decided: Phase, es: seq<UncommittedEvent>): Outcome
    requires es != []
  {
    if decided == Deciding(None) then DuplicateKey
    else ConcurrencyException(es[0].sourceId, es[0].initialVersion + |es|)
  }

  /** The atomic log takes the writer's batch, or refuses it and Store throws; either way no other source changes. */
  ghost predicate IsAtomicAppend(s: State, s': State, w: nat, es: seq<UncommittedEvent>)
    requires w < |s.writers| == |s'.writers| && es != []
  {
    && (match AtomicAppend(WinsOf(s, es[0].sourceId), Win(w, es))
        case Some(log) => WinsOf(s', es[0].sourceId) == log && s'.writers[w].phase == Saving(0)
        case None => WinsOf(s', es[0].sourceId) == WinsOf(s, es[0].sourceId) &&
                     s'.writers[w].phase == Stopped(Ended(Refusal(s.writers[w].phase, es))))
    && forall id | id != es[0].sourceId :: WinsOf(s', id) == WinsOf(s, id)
  }

  /** Every run refines the atomic log: the insert or update a writer makes on what it read, however long ago, takes
      effect exactly when the log takes the batch at that moment, and no other step touches the log. */
  lemma StepsRefineAtomicLog(steps: seq<Step>, step: Step)
    ensures var s, s' := Run(Init(), steps), Next(Run(Init(), steps), step);
      if Decides(s, step) then
        && |s'.writers| == |s.writers| && s.writers[step.writer].groups != [] && s.writers[step.writer].groups[0] != []
        && IsAtomicAppend(s, s', step.writer, s.writers[step.writer].groups[0])
      else forall id :: WinsOf(s', id) == WinsOf(s, id)
  {
    RunKeeps(steps);
    var s := Run(Init(), steps);
    if Decides(s, step) {
      DecidingIsAtomicAppend(s, step.writer);
    } else {
      OtherStepsKeepWins(s, step);
    }
  }

  lemma OtherStepsKeepWins(s: State, step: Step)
    requires !Decides(s, step)
    ensures Next(s, step).wins == s.wins
  {
  }

  lemma DecidingIsAtomicAppend(s: State, w: nat)
    requires Invariant(s) && w < |s.writers| && s.writers[w].phase.Deciding?
    ensures s.writers[w].groups != [] && s.writers[w].groups[0] != []
    ensures |ProgressStep(s, w).writers| == |s.writers|
    ensures IsAtomicAppend(s, ProgressStep(s, w), w, s.writers[w].groups[0])
    ensures var wins := WinsOf(s, s.writers[w].groups[0][0].sourceId);
      AtomicAppend(wins, Win(w, s.writers[w].groups[0])).Some? ==>
        IsGapless(Owned(wins), 0) && CountOf(s.db, s.writers[w].groups[0][0].sourceId) == |Owned(wins)|
  {
    assert WriterOk(s, w);
    var es, found := s.writers[w].groups[0], s.writers[w].phase.found;
    var id := es[0].sourceId;
    assert SourceOk(id, StoredEvents(s.db.events, id), GetVersion(s.db, id), WinsOf(s, id));
    NotStaleExactlyWhenTaken(id, StoredEvents(s.db.events, id), GetVersion(s.db, id), WinsOf(s, id), found,
                             es[0].initialVersion);
    if GetVersion(s.db, id) == found && (found == None || found == Some(es[0].initialVersion)) {
      WinSources(s, w, es, s.db.(versions := s.db.versions[id := NewVersion(es)]));
      TakenWins(s, w, es, found);
    } else {
      StaleStops(s, w, es, found);
    }
  }

  lemma TakenWins(s: State, w: nat, es: seq<UncommittedEvent>, found: Option<int>)
    requires w < |s.writers| && s.writers[w].groups != [] && s.writers[w].groups[0] == es && es != []
    requires s.writers[w].phase == Deciding(found) && GetVersion(s.db, es[0].sourceId) == found
    requires found == None || found == Some(es[0].initialVersion)
    ensures var id, s' := es[0].sourceId, ProgressStep(s, w);
      && |s'.writers| == |s.writers| && s'.writers[w].phase == Saving(0)
      && WinsOf(s', id) == WinsOf(s, id) + [Win(w, es)]
      && forall other | other != id :: WinsOf(s', other) == WinsOf(s, other)
  {
  }

  lemma StaleStops(s: State, w: nat, es: seq<UncommittedEvent>, found: Option<int>)
    requires w < |s.writers| && s.writers[w].groups != [] && s.writers[w].groups[0] == es && es != []
    requires s.writers[w].phase == Deciding(found)
    requires GetVersion(s.db, es[0].sourceId) != found || (found != None && found != Some(es[0].initialVersion))
    ensures ProgressStep(s, w) == Stop(s, w, Ended(Refusal(Deciding(found), es)))
    ensures forall id :: WinsOf(ProgressStep(s, w), id) == WinsOf(s, id)
  {
  }

  /** In every run Store returns without an exception exactly when nothing is left to store. */
  lemma {:induction false} ReturnsExactlyWhenAllIsStored(steps: seq<Step>, w: nat)
    ensures var s := Run(Init(), steps);
      w < |s.writers| ==> EndsRightly(s.writers[w])
  {
    if steps != [] {
      ReturnsExactlyWhenAllIsStored(steps[..|steps| - 1], w);
      RunKeeps(steps[..|steps| - 1]);
      StepEndsRightly(Run(Init(), steps[..|steps| - 1]), steps[|steps| - 1], w);
    }
  }

  predicate EndsRightly(writer: Writer) {
    writer.phase.Stopped? && writer.phase.how.Ended? ==> (writer.phase.how.outcome == Stored <==> writer.groups == [])
  }

  lemma StepEndsRightly(s: State, step: Step, w: nat)
    requires Invariant(s) && (w < |s.writers| ==> EndsRightly(s.writers[w]))
    ensures w < |Next(s, step).writers| ==> EndsRightly(Next(s, step).writers[w])
  {
    if step == Progress(w) && w < |s.writers| {
      assert WriterOk(s, w);
    }
  }

  /** What the writer read is still recorded, and is the version it expects, exactly when the log takes its batch. */
  lemma NotStaleExactlyWhenTaken(id: Guid, stored: seq<CommittedEvent>, version: Option<int>, wins: seq<Win>,
                                 found: Option<int>, initialVersion: int)
    requires SourceOk(id, stored, version, wins) && FoundOk(found, initialVersion, wins)
    ensures version == found && (found == None || found == Some(initialVersion)) <==> initialVersion == |Owned(wins)|
  {
    ChainIsNotEmpty(id, wins);
  }

  lemma ChainIsNotEmpty(id: Guid, wins: seq<Win>)
    requires IsChain(id, wins)
    ensures wins != [] ==> Owned(wins) != []
  {
  }

  /** The stored history is the winners' batches one after another, only the last possibly cut short. */
  lemma StoredIsWinnersInOrder(steps: seq<Step>, id: Guid)
    ensures var s := Run(Init(), steps);
      var stored, wins := StoredEvents(s.db.events, id), WinsOf(s, id);
      && stored <= AllCommitted(Owned(wins))
      && (wins != [] ==> AllCommitted(Owned(wins[..|wins| - 1])) <= stored)
  {
    RunSource(steps, id);
    var s := Run(Init(), steps);
    var stored, wins := StoredEvents(s.db.events, id), WinsOf(s, id);
    if wins != [] {
      var before := AllCommitted(Owned(wins[..|wins| - 1]));
      assert before == AllCommitted(Owned(wins))[..|before|] == stored[..|before|];
    }
  }

  lemma {:induction false} ChainVersionsGrow(id: Guid, wins: seq<Win>, i: nat, j: nat)
    requires IsChain(id, wins) && i < j < |wins|
    ensures wins[i].events != [] && wins[j].events != []
    ensures wins[i].events[0].initialVersion < wins[j].events[0].initialVersion
    ensures wins[j].events[0].initialVersion < |Owned(wins)|
  {
    var front := wins[..|wins| - 1];
    assert front != [] && front[|front| - 1] == wins[|wins| - 2];
    if j < |wins| - 1 {
      ChainVersionsGrow(id, front, i, j);
    } else if i < |wins| - 2 {
      ChainVersionsGrow(id, front, i, |wins| - 2);
    } else {
      assert Owned(front) == Owned(front[..|front| - 1]) + front[|front| - 1].events;
    }
  }

  /** Of all writers that start from one version of a source, at most one wins. */
  lemma OneWinnerPerVersion(steps: seq<Step>, id: Guid, i: nat, j: nat)
    ensures var wins := WinsOf(Run(Init(), steps), id);
      i < j < |wins| ==> wins[i].events != [] && wins[j].events != [] &&
                         wins[i].events[0].initialVersion != wins[j].events[0].initialVersion
  {
    RunSource(steps, id);
    var s := Run(Init(), steps);
    if i < j < |WinsOf(s, id)| {
      ChainVersionsGrow(id, WinsOf(s, id), i, j);
    }
  }

  // ----- Readers -----

  /** Whatever a reader finds at any point of any run, in whatever order the database returns it, is read as the
      stretch of the winners' history that was asked for. */
  lemma ReadFromIsStretch(steps: seq<Step>, id: Guid, minVersion: int, maxVersion: int, found: seq<CommittedEvent>)
    requires var stored := StoredEvents(Run(Init(), steps).db.events, id);
      multiset(found) == multiset(InRange(stored, minVersion, maxVersion))
    ensures OrderBySequence(found) == InRange(StoredEvents(Run(Init(), steps).db.events, id), minVersion, maxVersion)
  {
    StoredAscends(steps, id);
    var stored := StoredEvents(Run(Init(), steps).db.events, id);
    RangeAscends(stored, minVersion, maxVersion);
    OrderingAnyArrangement(found, InRange(stored, minVersion, maxVersion));
  }

  /** Every stretch makes a valid stream exactly when the whole history has no gap after its first event. */
  lemma ReadsAreValidExactlyWhenConsecutive(steps: seq<Step>, id: Guid)
    ensures var stored := StoredEvents(Run(Init(), steps).db.events, id);
      && (IsStream(id, stored) <==> forall low, high :: IsStream(id, InRange(stored, low, high)))
      && (Numbered(stored) <==> IsStream(id, stored) && (stored != [] ==> stored[0].sequence == 1))
  {
    StoredAscends(steps, id);
    var stored := StoredEvents(Run(Init(), steps).db.events, id);
    if IsStream(id, stored) {
      forall low, high
        ensures IsStream(id, InRange(stored, low, high))
      {
        RangeOfStream(id, stored, low, high);
      }
    } else {
      WholeRange(stored, stored[0].sequence, stored[|stored| - 1].sequence);
    }
  }

  // ----- A writer that stops half-way -----

  ghost predicate NoOwner(s: State, id: Guid) {
    forall w: nat | w < |s.writers| :: !Holds(s.writers[w], id)
  }

  /** The recorded version promises events that no running writer will store. */
  ghost predicate CutShort(s: State, id: Guid) {
    CountOf(s.db, id) < |Owned(WinsOf(s, id))| && NoOwner(s, id)
  }

  /** Once cut short a source gets no new winner and no new event: every later writer is refused. */
  lemma CutShortStays(s: State, step: Step, id: Guid)
    requires Invariant(s) && CutShort(s, id)
    ensures CutShort(Next(s, step), id) && WinsOf(Next(s, step), id) == WinsOf(s, id)
    ensures StoredEvents(Next(s, step).db.events, id) == StoredEvents(s.db.events, id)
  {
    match step
    case Begin(stream) =>
    case Progress(w) => if w < |s.writers| { CutShortProgress(s, w, id); }
    case Crash(w) =>
  }

  /** The step left the source alone, and its writer is not saving events of it. */
  ghost predicate Untouched(s: State, s': State, w: nat, id: Guid) {
    && w < |s.writers| == |s'.writers| && s'.writers == s.writers[w := s'.writers[w]]
    && StoredEvents(s'.db.events, id) == StoredEvents(s.db.events, id) && WinsOf(s', id) == WinsOf(s, id)
    && !Holds(s'.writers[w], id)
  }

  lemma UntouchedStaysCutShort(s: State, s': State, w: nat, id: Guid)
    requires CutShort(s, id) && Untouched(s, s', w, id)
    ensures CutShort(s', id)
  {
    forall x: nat | x < |s'.writers|
      ensures !Holds(s'.writers[x], id)
    {
      assert x == w || (s'.writers[x] == s.writers[x] && !Holds(s.writers[x], id));
    }
  }

  lemma CutShortProgress(s: State, w: nat, id: Guid)
    requires Invariant(s) && CutShort(s, id) && w < |s.writers|
    ensures CutShort(ProgressStep(s, w), id) && WinsOf(ProgressStep(s, w), id) == WinsOf(s, id)
    ensures StoredEvents(ProgressStep(s, w).db.events, id) == StoredEvents(s.db.events, id)
  {
    assert WriterOk(s, w) && !Holds(s.writers[w], id);
    if s.writers[w].groups != [] && s.writers[w].phase.Deciding? {
      NoWinWhileCutShort(s, w, id);
    } else if s.writers[w].groups != [] && s.writers[w].phase.Inserting? {
      InsertsElsewhere(s, w, id);
    } else {
      assert Untouched(s, ProgressStep(s, w), w, id);
    }
    UntouchedStaysCutShort(s, ProgressStep(s, w), w, id);
  }

  lemma NoWinWhileCutShort(s: State, w: nat, id: Guid)
    requires Invariant(s) && CutShort(s, id) && w < |s.writers| && s.writers[w].phase.Deciding?
    ensures Untouched(s, ProgressStep(s, w), w, id)
  {
    DecidingIsAtomicAppend(s, w);
  }

  lemma InsertsElsewhere(s: State, w: nat, id: Guid)
    requires w < |s.writers| && WriterOk(s, w) && !Holds(s.writers[w], id)
    requires s.writers[w].groups != [] && s.writers[w].phase.Inserting?
    ensures Untouched(s, ProgressStep(s, w), w, id)
  {
    var es, saved := s.writers[w].groups[0], s.writers[w].phase.saved;
    assert es[saved].sourceId == es[0].sourceId != id;
    StoredAfterInsert(s.db.events, DomainEvent(s.writers[w].phase.sequentialId, Committed(es[saved])), id);
  }

  // ----- The global sequence -----

  /** Ids handed out are never beyond the counter, and an id is stored or about to be stored only once. */
  ghost predicate IdsOk(s: State) {
    && (forall i, j | 0 <= i < j < |s.db.events| :: s.db.events[i].sequentialId != s.db.events[j].sequentialId)
    && (forall d | d in s.db.events :: d.sequentialId <= s.db.counter)
    && (forall w: nat | w < |s.writers| && s.writers[w].phase.Inserting? ::
          s.writers[w].phase.sequentialId <= s.db.counter &&
          forall d | d in s.db.events :: d.sequentialId != s.writers[w].phase.sequentialId)
    && (forall w: nat, x: nat | w < x < |s.writers| && s.writers[w].phase.Inserting? && s.writers[x].phase.Inserting? ::
          s.writers[w].phase.sequentialId != s.writers[x].phase.sequentialId)
  }

  lemma NextKeepsIds(s: State, step: Step)
    requires IdsOk(s)
    ensures IdsOk(Next(s, step))
  {
    if step.Progress? && step.writer < |s.writers| {
      ProgressKeepsIds(s, step.writer);
    }
  }

  lemma ProgressKeepsIds(s: State, w: nat)
    requires IdsOk(s) && w < |s.writers|
    ensures IdsOk(ProgressStep(s, w))
  {
    var s', phase := ProgressStep(s, w), s.writers[w].phase;
    assert forall x: nat | x < |s.writers| && x != w :: s'.writers[x] == s.writers[x];
    if s'.writers[w].phase.Inserting? && !phase.Inserting? {
      assert s'.writers[w].phase.sequentialId == s.db.counter + 1 == s'.db.counter && s'.db.events == s.db.events;
    } else if s'.db.events != s.db.events {
      assert s'.db.events[..|s.db.events|] == s.db.events && s'.db.counter == s.db.counter;
      assert s'.db.events[|s.db.events|].sequentialId == phase.sequentialId;
    }
  }

  /** No two stored events share a sequential id, and the next insert never meets one that is taken. */
  lemma {:induction false} SequentialIdsAreUnique(steps: seq<Step>)
    ensures IdsOk(Run(Init(), steps))
  {
    if steps != [] {
      SequentialIdsAreUnique(steps[..|steps| - 1]);
      NextKeepsIds(Run(Init(), steps[..|steps| - 1]), steps[|steps| - 1]);
    }
  }
}
